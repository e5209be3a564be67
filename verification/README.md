# A verified model of the Ontology wallet app's signing pipeline

The app signs Ontology transactions and messages on a hardware wallet. A host sends a BIP-32 path and
then the bytes to be signed in chunks; the app parses the transaction, shows it, and signs a hash if
the user confirms. This project models that pipeline in Dafny and proves what it is for: what is
signed is what was reviewed, and what is reviewed is what the bytes mean.

It has four linked parts.

1. **Transaction parser.** `Grammar` is the transaction language as abstract syntax and how it is
   written down. `ParserSpec` says what each C parser computes; `Reader`, `Parse` and `Deserializer`
   are the imperative parsers, with a byte reader and slot arrays, proved against it. `Acceptance` shows
   that the parser accepts exactly the printed well-formed transactions; `ParserLaws`, `BlindSigning`
   and `StoredFields` draw the consequences.
2. **Amounts.** `Utils` and `Formatting` are the decoding loops, the 128-bit division loop and the
   placing of the decimal point; `Decimal` says what canonical decimal text is.
3. **Display.** `DisplayPlan` is what a review shows, as a function; `Display` and `Screen` are the
   methods that assemble it in an array of entries and an array of text slots. `DisplayLaws`,
   `StakingLaws` and `CaptionLaws` relate it to the transaction's syntax tree, `Params` to what the
   parameters mean. `MethodRows` has the rows of every method written out, with captions, units and
   decimals as the user reads them; `Examples` has whole transactions byte by byte with their reviews.
   `CompletenessLaws` says for every transaction whether its review shows all of it,
   in units of the token, and that such a review determines the parameters.
   `Counterexamples` has a well-formed transaction and its review for each property that fails.
   `MessageText` is the text of a message.
4. **Session.** `Session` is the state machine of commands and decisions; `SessionLaws` and
   `SigningLaws` are about whole runs; `AnswerLaws` gives the answer to every command and decision of a
   run in the numbers of the protocol; `PathLaws` says which paths a first chunk spells. `App` is one object with the app's globals and a method per C
   function, proved to follow the state machine.

Both device builds (4096 bytes and 90 slots, 6844 bytes and 150 slots) and both widths of `size_t`
(32 bits on the device, 64 bits in the host tests) are covered: `Target` ranges over all four.

SHA-256, Base58Check, key derivation and the address of a key are functions given from outside (`Env`);
whether hashing and signing succeed is part of the event. A signature is recorded as the path and the
hash it is made with.

## Where the code differs from its documentation

The model follows the code.

- A transfer state has the separator `6a7cc8` behind the amount too, in front of `6c`
  (src/transaction/parse.c:183-202; the comment at src/transaction/deserialize.c:86 leaves it out).
- The length byte of an address is 0x14, not 0x20 (src/transaction/parse.c:144-160;
  src/transaction/deserialize.c:93).
- A prefixed amount may have up to 16 bytes, not 8 (src/transaction/parse.c:31-51).
- With a 32-bit `size_t` the high bytes of an eight-byte payload size are dropped, so one payload has
  several such sizes; `SizeForm` keeps what was dropped.
- A list of no transfers is accepted if its count is written with a length byte
  (`ParserLaws.EmptyTransferList`); it has no review.
- For an unknown WebAssembly call the final zero byte is not looked at, and the name may reach up to
  it; `FrameOk` in `BlindSigning` says so.
- `process_precision` asks for one byte too few when the precision equals the number of digits
  (`Formatting.ReservedCovers`). Its callers' 67 bytes are always enough.
- A fee of 100 ONG or more runs into the signer's text unless it ends in as many zeros as its size
  asks for (`Review.FeeShownExactly`, `Counterexamples.LargeFeeRunsOn`).
- A total of 2^64 or more is shown modulo 2^64 (`StakingLaws.TotalExact`, `Counterexamples.TotalWraps`).
- A first chunk with a refused path leaves its session open (`SigningLaws.RefusedPathCanBeUsed`), so
  statements about paths are tied to the answer to the first chunk.
- Calls of a contract in a virtual machine that is not its own are accepted. Their captions need not
  fit (`CaptionLaws.CaptionsFit` says when they do, `Counterexamples.ForeignCallMislabelled` is one
  that does not), and a staking call that is not native is shown with its stake address alone, without
  key or amount (`StakingLaws.StakeShownInFull`, `Counterexamples.ForeignStakeHidden`).
- The V2 methods have nine decimals more only in native calls (src/transaction/deserialize.c:359-361
  promises them for the methods); a foreign V2 call shows its amount nine decimals too large
  (`CompletenessLaws.DecimalsRight`, `Counterexamples.ForeignUnits`).
- The last amount of registerCandidate is stored but not shown (`Counterexamples.RegistrationHides`).

## Model

| member | source | states |
|---|---|---|
| Acceptance.AcceptsExactlyThePrinted | src/transaction/deserialize.c:18-109 | bytes are accepted as a transaction if and only if it is well-formed and the bytes are its printed form; there is no other accepted input and no second reading |
| Deserializer.TransactionDeserialize | src/transaction/deserialize.c:449-494 | the imperative parser returns the specified status for every input, stores header, contract, name, decimals and exactly the parameters' slots, and leaves the slots alone unless the size test was passed |
| ParserLaws.PrintThenParse | src/transaction/deserialize.c:449-494 | every well-formed transaction within the limits parses back to itself |
| ParserLaws.OneTransferAccepted | src/transaction/deserialize.c:62-89 | a transfer of 1 to 16 ONT with any valid header, between any addresses, is well-formed and accepted in every build |
| ParserLaws.PrintInjective | src/transaction/deserialize.c:18-109 | two well-formed transactions with the same bytes are the same |
| ParserLaws.ExactCover | src/transaction/deserialize.c:133-494 | re-printing what was parsed, with its size form, gives back every byte |
| ParserLaws.TwoEndsMeet | src/transaction/deserialize.c:280-333 | the forward parse of the parameters ends exactly behind the last terminator the backward scan finds, and the name fills the rest up to the trailer |
| ParserLaws.NoTerminatorNoMethod | src/transaction/deserialize.c:310-333 | without a terminator in range, or with a contract address starting with 0xc1, no method name is found |
| ParserLaws.RecognisedIsPrefixFree | src/transaction/deserialize.c:178-221 | of two byte strings that are accepted or offered for blind signing neither is a proper prefix of the other |
| ParserLaws.GateIsPrefixFree | src/transaction/deserialize.c:178-221 | once bytes pass the size test no proper extension does, and each gives the wrong-length status |
| TxTypes.LimitMeans | src/transaction/deserialize.c:156-165 | the overflow-free test by division accepts a limit exactly when price times limit is within the supply, so the grammar states the product |
| TxTypes.DroppedRestored | src/transaction/deserialize.c:178-221 | what a conversion to size_t keeps and drops determines the number that was written |
| ParserLaws.FeeFits | src/transaction/deserialize.c:156-165 | price times limit of an accepted header is at most 10^18, so the 64-bit product is exact |
| ParserLaws.HeaderLimits | src/transaction/deserialize.c:150-167 | a header is accepted exactly if price and limit are at least 2500 and 20000 and their product is at most 10^18 |
| ParserLaws.EmptyTransferList | src/transaction/deserialize.c:338-355 | a list of no transfers is well-formed exactly when its zero count has a length byte |
| BlindSigning.BlindExactlyUnknown | src/transaction/deserialize.c:365-428 | the not-defined status is given to exactly the calls with a valid header, size, trailer, name and opening bytes whose address and name are not in the tables |
| BlindSigning.RegisteredNeverBlind | src/transaction/deserialize.c:385-428 | a registered pair with malformed parameters never gets the not-defined status |
| StoredFields.AcceptedSlotsHold | src/transaction/parse.c:204-271 | after acceptance slot number i points at the bytes of the i-th kept parameter, with its kind |
| Contracts.RegisteredCalls | src/transaction/contract.c:21-167 | registered addresses have 20 bytes and do not start with 0xc1; names are short 7-bit text the scan cannot mistake for a terminator; key lists come early |
| Deserializer.DeserializeHeader | src/transaction/deserialize.c:133-174 | status and stored header for every input |
| Deserializer.DeserializePayloadSize | src/transaction/deserialize.c:178-221 | passes exactly when the size, in size_t arithmetic, reaches the byte before the last |
| Deserializer.DeserializeContract | src/transaction/deserialize.c:226-271 | finds the trailer or leading address of each kind of contract, or fails |
| Deserializer.DeserializeMethod | src/transaction/deserialize.c:280-333 | finds the name between the last terminator and the trailer, or behind a WebAssembly address |
| Deserializer.NativeTransferParams | src/transaction/deserialize.c:338-355 | ends, never reads past the buffer, and on success has stored three slots per transfer with the encoded count equal to their number |
| Deserializer.DeserializeParams | src/transaction/deserialize.c:365-445 | chooses the parser by contract and name, sets the decimals, and reports undefined calls |
| Parse.ParseTransferState | src/transaction/parse.c:183-202 | accepts one transfer state and stores its three slots inside the array |
| Parse.ParsePkAmountPairs | src/transaction/parse.c:97-133 | stores count, keys and amounts inside the array for every 64-bit count, also when the slot count wraps |
| Parse.ParseMethodParams | src/transaction/parse.c:204-271 | parses the arguments a signature asks for and stores their slots in order |
| Parse.ParseAmount | src/transaction/parse.c:31-51 | accepts the byte 0, an opcode number, or 1 to 16 prefixed bytes |
| GrammarProofs.PairsParse | src/transaction/parse.c:97-133 | a key list is parsed exactly where its printed form occurs and its unwrapped slots fit |
| GrammarProofs.TransfersParse | src/transaction/deserialize.c:338-355 | the loop parses exactly the printed lists of transfers that do not go on |
| GrammarProofs.ArgsParse | src/transaction/parse.c:204-271 | arguments are parsed exactly where their printed forms occur one after the other |
| Utils.AmountDecodes | src/transaction/utils.c:101-125 | every encoding the parser accepts decodes to its value below 2^128, and in the 64-bit decoder exactly when it has at most 8 value bytes |
| Utils.Uint128Decodes | src/transaction/utils.c:101-125 | sixteen unprefixed bytes decode to their little-endian value |
| Utils.OrByte | src/transaction/utils.c:28-43 | or-ing in a shifted byte adds its base-256 digit |
| Utils.ConvertBytesToUint64Le | src/transaction/utils.c:28-43 | the shift-or loop computes the little-endian value |
| Utils.ConvertParamToUint64Le | src/transaction/utils.c:196-218 | decodes a parameter of at most nine bytes, or fails |
| Utils.ConvertParamsToUint128Le | src/transaction/utils.c:101-125 | the two limbs together are the decoded value |
| Formatting.DivisionRound | src/transaction/utils.c:140-165 | one round computes true quotient and remainder by 10 without overflow; the carry into the high sum is 0 |
| Formatting.FormatU128 | src/transaction/utils.c:128-175 | writes the decimal digits of high * 2^64 + low, for all 2^128 values, never before the buffer |
| Formatting.ProcessPrecision | src/transaction/utils.c:45-99 | places the point and trims zeros, giving the canonical text of v / 10^precision, or refuses; behind the output nothing changes except, where the size test is one byte short, the one character that becomes the NUL |
| Formatting.ReservedCovers | src/transaction/utils.c:62-66 | the size test covers what is written if and only if the precision differs from the digit count |
| Formatting.ConvertParamAmountToChars | src/transaction/utils.c:221-237 | in a 67-byte buffer, the text of the decoded amount, or failure |
| Decimal.AmountTextExact | src/transaction/utils.c:178-194 | the text has no superfluous zero or bare point and reads back to the raw value |
| Decimal.AmountTextUnique | src/transaction/utils.c:178-194 | it is the only such text |
| MessageText.MakeMessageVisible | src/ui/nbgl_display_message.c:70-112 | writes the complete visible text, or fails exactly when the buffer is too short or the message empty |
| MessageText.NeverTruncated | src/constants.h:31-35 | a message of at most 1024 bytes fits its buffer in both builds |
| MessageText.VisiblePrintable | src/ui/nbgl_display_message.c:90-112 | only printable characters are shown |
| MessageText.UnescapeExact | src/ui/nbgl_display_message.c:90-112 | un-escaping gives back the message, with blanks for white space, if and only if the message does not itself spell an escape sequence |
| MessageText.VisibleReadBack | src/ui/nbgl_display_message.c:70-112 | the same for the text as shown, in either of its two forms |
| MessageText.EscapesCollide | src/ui/nbgl_display_message.c:90-112 | two different messages with the same text |
| MessageText.HexRead | src/ui/nbgl_display_message.c:78-88 | the hexadecimal form reads back to the bytes |
| MessageText.HexFormCollides | src/ui/nbgl_display_message.c:78-88 | each message shown in hexadecimal shares its text with the message that spells it |
| MessageText.VisibleMeans | src/ui/nbgl_display_message.c:70-112 | the text is the message byte by byte: white space as a blank, other printable characters as themselves, the rest as a backslash, an x and two digits; or 0x and 40 digits for twenty bytes that are not all printable |
| Display.InitDisplayPosAndItem | src/ui/tx_init.c:32-193 | fills the static array with the plan of the method, or reports that there is none |
| Display.ConvertParamToChars | src/ui/tx_init.c:195-246 | the text of a parameter by its kind, or failure |
| Display.HandleParams | src/ui/nbgl_display_transaction.c:56-208 | the entries show exactly the plan of the stored parameters, and no text slot is overwritten once shown |
| Display.ShowStaking | src/ui/nbgl_display_transaction.c:88-181 | the entries of a call with a list of keys |
| Display.ShowTransfers | src/ui/nbgl_display_transaction.c:183-206 | block after block, stopping exactly at the first unused slot |
| Screen.ReadScreen | src/ui/nbgl_display_transaction.c:260-287 | following the written references gives the intended rows |
| ReviewLaws.AcceptedIsWellStored | src/handler/sign_tx.c:38-90 | in fresh slots an accepted transaction leaves just its parameters, with the counts the display relies on |
| DisplayLaws.TransfersShown | src/ui/nbgl_display_transaction.c:183-206 | n transfers are shown as exactly 3 * n rows, each once and in order, as sender, amount, receiver; none have no review |
| StakingLaws.StakingShown | src/ui/nbgl_display_transaction.c:56-181 | every staking call: a native one with up to three peers shows key i followed by amount i, with more the first three keys, how many remain, and the total; any other shows the stake address alone; and exactly when there is a review |
| StakingLaws.StakingReview | src/ui/nbgl_display_transaction.c:102-181 | the rows of a reviewed native call written out: amounts and total are captioned as stake, unstake or withdraw amount by the name of the method, and are in ONT |
| StakingLaws.StakeShownInFull | src/ui/nbgl_display_transaction.c:76-181 | in a reviewed staking call the stake address with all keys and amounts, or with three keys, how many remain, and the true total, is shown if and only if the call is native and a total that is shown is below 2^64 |
| StakingLaws.TotalExact | src/ui/nbgl_display_transaction.c:160-178 | the last row of the review of a native call with more than three peers shows the sum of all amounts if and only if that sum fits in 64 bits |
| Counterexamples.TotalWraps | src/ui/nbgl_display_transaction.c:160-178 | a well-formed withdrawal of 2^64 ONT whose review ends with a total of 0 ONT |
| Counterexamples.WrappedNotComplete | src/ui/nbgl_display_transaction.c:160-178 | that review is not complete |
| StakingLaws.StakingKinds | src/transaction/contract.c:78-167 | the staking methods are registered for the governance contract only, with an address and a key list |
| CaptionLaws.CaptionsFit | src/ui/tx_init.c:32-193 | a reviewed call without lists has a row with the text of each stored parameter (but the last of registerCandidate) and no other (but the fixed fee of a native registerCandidate); all captions fit if and only if the contract is in its own virtual machine, or is the governance contract, or the method is a V2 method |
| MethodRows.CallReview | src/ui/tx_init.c:32-246 | every call without lists, in the virtual machine of its contract, is reviewed with exactly the rows written out for its method from its arguments: captions, order, decimals, unit or percent sign; and has no review exactly if an address has no text |
| MethodRows.ListReview | src/ui/nbgl_display_transaction.c:183-206 | the same for lists of transfers of ONT and ONG, with nine decimals more in transferV2 |
| Examples.OntTransferReviewed | tests/test_sign_cmd.py:42 | a transfer given byte by byte, between any addresses, is accepted and shown as sender, 1 ONT, receiver, at a fee of 0.05 ONG |
| Examples.OngTransferReviewed | tests/test_sign_cmd.py:74 | the same for a transferV2 of 1 ONG with eighteen decimals |
| Examples.MblApprovalReviewed | tests/test_oep4_neovm_approve_sign_cmd.py:29 | the same for an NeoVM approval of 0.01332075 MBL |
| Examples.WingApprovalReviewed | src/transaction/contract.c:21-167 | the same bytes with the address of WING, shown as 0.001332075 WING |
| Examples.WasmTransferReviewed | tests/test_oep4_sign_cmd.py:29 | the same for a WebAssembly transfer of 0.716753302 stONT |
| Examples.FeePercentageReviewed | tests/test_set_fee_percentage_cmd.py:37 | the same for setFeePercentage: stake address, key, node ratio 33%, user ratio 10% |
| Examples.AuthorizationReviewed | tests/test_authorize_for_peer_cmd.py:37 | the same for authorizeForPeer with one key: stake address, key, stake amount 1000 ONT |
| Params.WordItemField | src/ui/tx_init.c:210-229 | the sixteen bytes of a WebAssembly amount are shown as the decimal text of their little-endian value, and in no other virtual machine |
| Params.ArgsMean | src/ui/tx_init.c:195-246 | every kept parameter is shown as what it means: an address in Base58Check, a key as its characters, a number in units of 10^decimals |
| CompletenessLaws.ReviewComplete | src/ui/nbgl_display_transaction.c:56-208 | over all well-formed transactions with a review: it shows all transfers, or the stake with its true total, or every stored parameter under a fitting caption, with amounts in units of the token, if and only if the transaction is a transfer list; or a native staking call whose total, if shown, is below 2^64; or another call than registerCandidate, of a contract in its own virtual machine, of the governance contract, or of a V2 method with amount 0 |
| CompletenessLaws.DecimalsRight | src/transaction/deserialize.c:357-381 | a registered call has fitting captions and the token's decimals if and only if the contract is in its own virtual machine or is the governance contract |
| CompletenessLaws.ScaleMatters | src/transaction/utils.c:178-194 | nine decimals more change the text of every amount but 0 |
| CompletenessLaws.ReviewDetermines | src/ui/nbgl_display_transaction.c:56-208 | with injective Base58Check, two transactions of the same method with the same review have the same parameters up to the encoding of amounts: for all transfer lists, native staking calls with up to three peers, and other calls but registerCandidate |
| Counterexamples.ForeignCallMislabelled | src/ui/tx_init.c:46-66 | a well-formed native call of an NeoVM token whose review shows the amount as the sender and the addresses as amount and receiver |
| Counterexamples.ForeignStakeHidden | src/ui/nbgl_display_transaction.c:76-79 | a well-formed NeoVM withdrawal that stores a key and an amount and whose review is the stake address alone |
| Counterexamples.RegistrationHides | src/ui/tx_init.c:116-124 | well-formed registrations that differ in their last amount and have the same review |
| Counterexamples.ForeignUnits | src/transaction/deserialize.c:357-381 | the same approveV2 arguments are shown as 0.000000001 ONT in a native call and as 1 ONT in an NeoVM call; only the native review is complete |
| Review.FeeShownExactly | src/ui/nbgl_display_transaction.c:301-310 | the fee row says what was computed if and only if the fee ends in as many zeros as its whole number of ONG has digits beyond two |
| Review.FeeFitsIff | src/ui/nbgl_display_transaction.c:210-220 | that is when the text fits with its NUL in 17 bytes |
| Review.ClosingRows | src/ui/nbgl_display_transaction.c:210-220 | the last two rows are price times limit in ONG, cut at 17 characters and followed by the signer's text if it does not fit, and the signer |
| Review.BlindRowsRead | src/ui/nbgl_display_transaction.c:229-258 | the warning, and an address text whose digits read back to the contract's address |
| Review.SmallFeeFits | src/ui/nbgl_display_transaction.c:210-220 | which it does below 100 ONG |
| Counterexamples.LargeFeeRunsOn | src/ui/nbgl_display_transaction.c:301-310 | a well-formed transfer whose fee row differs from its fee |
| Review.MessageAlwaysShown | src/ui/nbgl_display_message.c:118-161 | every collectable message is shown in full, byte by byte, above the signer, if the signer can be derived |
| SessionLaws.ContextIsHistory | src/handler/sign_tx.c:38-90 | in every run the union holds the variant of the instruction that reset it last, with exactly the chunks taken since, within its array, and an open review shows what is stored |
| SessionLaws.UnionDiscipline | src/types.h:78-88 | no run touches a variant of the union that is not there |
| SessionLaws.SignedIsReviewed | src/ui/action/validate.c:60-75 | a transaction signature answers a confirmed review, shown directly before, of the chunks taken since the latest first chunk; it is over SHA-256 applied three times to them; they were accepted or unknown with blind signing on; and the first chunk was answered 9000 exactly if it starts with a path of the app |
| SessionLaws.SignedMessageIsReviewed | src/handler/sign_msg.c:34-93 | a message signature likewise, over the hash of the byte 0x19, the line "Ontology Signed Message:", the numeral of the length, and the message |
| SessionLaws.SignatureKinds | src/ui/action/validate.c:36-115 | there are no other signatures |
| SessionLaws.OneReviewPerSession | src/handler/sign_tx.c:60-86 | between two transaction reviews there is a new first chunk |
| SessionLaws.OneSignaturePerSession | src/ui/action/validate.c:60-75 | and between two transaction signatures |
| SessionLaws.TurnedAwayChangesNothing | src/apdu/dispatcher.c:36-94 | a command that is turned away leaves the whole state as it was; the guards of the reviews never fire |
| SessionLaws.SharedKeyIsReviewed | src/handler/get_public_key.c:37-67 | a key given out after a review is the one whose address was shown |
| PathLaws.PathRead | src/handler/sign_tx.c:44-49 | 1 to 10 words printed as a count and four bytes each, the most significant first, are read as these words, whatever follows |
| PathLaws.PathPrinted | src/handler/sign_tx.c:44-49 | every complete first chunk starts with such a printed path |
| PathLaws.PrintedPathAnswer | src/transaction/utils.c:239-245 | a printed path is answered 9000 if it has at least two words, the first 0x8000002c and the second 0x80000400 or 0x80000378, and b00b otherwise |
| PathLaws.PathAnswerOk | src/transaction/utils.c:239-245 | a first chunk is answered 9000 if and only if it starts with a printed path of that kind |
| PathLaws.OtherPathAnswer | src/handler/sign_tx.c:44-49 | a chunk that starts with no printed path is answered 6a87 |
| AnswerLaws.CommandAnswered | src/apdu/dispatcher.c:36-94 | in every run, the answers that depend on the command alone: wrong class, instruction, parameters or empty data; first chunks by their path; and key requests with the key, its review, or why not |
| AnswerLaws.KeyIsAskedFor | src/handler/get_public_key.c:37-67 | a key given in answer to a command was asked for without display, and is the one derived at the path of the app in that command |
| AnswerLaws.TxChunkAnswered | src/handler/sign_tx.c:55-107 | in every run, the answer to every later chunk of a transaction: b007 without a session, b004 when too long, 9000 for more to come, b005 for bytes that are neither a transaction nor an unknown call with blind signing on, b006 for a failed hash, b002 without a signer, b00a without rows, and otherwise the review of what the bytes are |
| AnswerLaws.MessageChunkAnswered | src/handler/sign_msg.c:53-93 | the same for messages of up to 1024 bytes, with 6a87 beyond |
| AnswerLaws.ChoiceAnswered | src/ui/action/validate.c:28-114 | every decision answers the review directly before it: 6985 if refused, b008 if signing fails, otherwise the key or the signature of that review |
| SigningLaws.ChunkingIsIrrelevant | src/handler/sign_tx.c:55-86 | however the bytes are cut and numbered, the outcome is that of one chunk |
| SigningLaws.MessageChunking | src/handler/sign_msg.c:50-90 | the same for messages |
| SigningLaws.WellFormedCanBeSigned | src/handler/sign_tx.c:38-107 | from every idle state any chunking of a well-formed transaction leads to its review, and confirming signs SHA-256 applied three times to it; a signature that fails gives b008, a refusal 6985 |
| SigningLaws.MessageCanBeSigned | src/handler/sign_msg.c:34-93 | from every idle state any chunking of any message of 1 to 1024 bytes leads to its review in full, and confirming signs the hash of text, length numeral and message |
| SigningLaws.SignedWasShown | src/ui/nbgl_display_transaction.c:260-317 | what was signed, if accepted, is the printed form of a transaction whose plan was shown directly before, then price times limit in ONG and the signer; the plan is complete if and only if `CompleteWhen`, and the fee row is the fee if and only if the fee ends in the needed zeros |
| SigningLaws.SameReviewSameParameters | src/ui/action/validate.c:60-75 | two signatures of the same method behind equal reviews are of the same parameters, where the review has a row for each |
| SigningLaws.SignedTransfersWereShown | src/ui/nbgl_display_transaction.c:183-206 | a signed list of transfers was shown transfer by transfer, in ONT or ONG with the decimals of its method |
| SigningLaws.SignedStakingWasShown | src/ui/nbgl_display_transaction.c:56-181 | a signed staking call was shown peer by peer, or with its true total, if and only if it was native and a shown total fits in 64 bits; a native one with its amounts captioned as stake, unstake or withdraw amount by its name; one that was not native with its stake address alone |
| SigningLaws.SignedCallWasShown | src/ui/tx_init.c:32-193 | any other signed call was shown with one row, with its text, for each plan entry and no more, under fitting captions if and only if the call is faithful; in the virtual machine of its contract with exactly the rows written out for its method |
| SigningLaws.BlindIsUnregistered | src/ui/nbgl_display_transaction.c:229-258 | what is signed without being understood is the printed form of an unregistered call, with the setting on, and its review was "Transaction cannot be verified!", the digits of the contract's address, the fee row and the signer |
| SigningLaws.RefusedPathCanBeUsed | src/handler/sign_msg.c:36-52 | a run with a signature under a path whose first chunk was refused |
| App.Device.constructor | src/app_main.c:38-50 | the app starts in the initial state |
| App.AppMain | src/app_main.c:61-86 | whatever events arrive, the exchange is a run of the state machine |
| App.Device.ApduDispatcher | src/apdu/dispatcher.c:36-94 | state and answer after every command are those of the state machine |
| App.Device.HandlerSignTx | src/handler/sign_tx.c:38-90 | the same for transaction chunks |
| App.Device.ParseTx | src/handler/sign_tx.c:74-83 | the slots are fresh whenever a parse succeeds, because at most one parse of a session gets past the size test |
| App.Device.HashTxAndDisplay | src/handler/sign_tx.c:92-107 | hashes three times, as `SigningLaws.WellFormedCanBeSigned` and `SessionLaws.SignedIsReviewed` state, then opens the review |
| App.Device.UiDisplayTransaction | src/ui/nbgl_display_transaction.c:289-317 | opens the review of what was parsed, or answers why not |
| App.Device.NormalRows | src/ui/nbgl_display_transaction.c:260-287 | the rows read from the screen are the plan, the fee and the signer |
| App.Device.BlindRowsOf | src/ui/nbgl_display_transaction.c:229-258 | the warning, the contract's address, the fee and the signer |
| App.Device.HandlerSignMessage | src/handler/sign_msg.c:34-93 | state and answer after every message chunk |
| App.Device.UiDisplayMessage | src/ui/nbgl_display_message.c:118-161 | opens the review of the message, or answers why not |
| App.Device.HandlerGetPublicKey | src/handler/get_public_key.c:37-67 | resets the context, derives the key, and shows its address on request |
| App.Device.ValidateTransaction | src/ui/action/validate.c:60-75 | the decision step of a transaction |
| App.Device.ValidatePersonalMsg | src/ui/action/validate.c:101-115 | the decision step of a message |
| App.Device.ValidatePubkey | src/ui/action/validate.c:28-34 | the decision step of a key |

## Left out

- Screens, menus, titles, icons and status pages; a review is an event with its rows, a choice is an event.
- Transport of commands and responses, and the layout of response data; an output is a value.
- SHA-256, RIPEMD-160, ECDSA, BIP-32 derivation and Base58Check; they are functions or outcomes from outside.
- GET_VERSION and GET_APP_NAME beyond "a constant is sent".
- Non-volatile storage beyond one boolean.
- The SDK's buffer readers, `format_hex`, `format_u64`, `format_fpu64_trimmed` and `strlcat` are modelled by hand, from what they are documented to do; their sources are not part of this model.
- Slots of a parse that fails: where a single parser fails half-way its slot is `NoSlot` here and partly written in C. Nothing reads such a slot.
- The text slots are an array of texts, one per 67-byte slot. The slot that total and fee share is two cells, and the one overlap that can occur, from the fee into the signer, is written out in `Overlaid`.
- The loop over further transfers tests the array bound before it looks at the slot, not after.
- The end marker of a signature's parameter list is the end of a sequence; the contract tables are constants. The kind of a method's name slot, which C leaves unset, is `AddrKind`.
- The union of the context is a tagged value in `Session` and separate fields in `App`; `UnionDiscipline` is why that is the same.
- A hash that fails leaves the stored hash as it was; in C the first of the three may have been stored. It is not signed.
- The copy of a chunk cannot fail once its length is known to fit, so its failure branch has no counterpart.
- The guard of `ui_display_address` has no counterpart: both its conditions have just been set by its only caller.
- The null checks on arguments that callers always supply have no counterpart.
- Formatting.ProcessPrecision: the checks for null, a negative precision and an empty input have no counterpart; its only caller passes a numeral and a precision of at most 39.
