# Asteroid protocol: payments, wire format, launchpad and uploader

A Dafny model of the parts of the Asteroid protocol repository where money, bytes and shared tables move, with proofs of what they keep. `dafny verify dfyconfig.toml` checks all of it.

- **Wire format** (`Varint`, `WireFields`, `UnknownFields`, `ProtoTypes`): the two hand-written message codecs. The loops of `encode` and `decode` are stated once for a message of length-delimited fields, and the methods over a writer and a reader are proved against that. The primitives of the writer and the reader belong to a package outside the repository; they are written after the Protocol Buffers Encoding specification (sections "Base 128 Varints", "Message Structure", "Last One Wins"), and a payload that runs past the end of the input is an error.
- **URN** (`Urn`, `IndexerParser`): the printer of operation URNs, with a reader of the printed shape, and the indexer's own reader. The character set is that of section 2.2 of RFC 2141.
- **Transactions** (`Numbers`, `Tx`, `Operations`): `parseInt`, `toFixed`, and the assembly of messages, extension options and the fee.
- **Marketplace, client** (`Marketplace`, `MarketplaceProperties`, `ListingDisplay`): listing with its fee, deposit and buy with their guards, the royalty split, the two batch loops, the trading fee, and the page's own decision about a listing. Amounts are integers of uatom and percentages are exact reals.
- **Marketplace, indexer** (`MarketLedger`, `MarketMoves`, `MarketProcess`, `MarketSafety`, `MarketCustody`): the tables of balances, orders, listings and owners with the operations that change them, what each one moves and when it is taken, the processor from a transaction's memo on, what runs conserve, and how the indexer's checks compare with the client's guards.
- **Settlement** (`Settlement`, `Delivery`): the client's transactions under the indexer's payment checks, and end to end what the indexer makes of them.
- **Launchpad** (`Stages`, `TokenDraw`, `MintBot`, `Budget`): the stage a visitor is offered, the drawing of token ids, the bot's transaction, and the spend limit over whole runs of grants and mints.
- **Uploader** (`UploaderTables`, `UploaderTasks`, `UploaderSafety`, `UploaderService`, `UploaderRace`, `Coverage`, `BulkClient`): the three tables, the handlers, the counts, and the bulk upload form.
- **Indexer** (`BlockCursor`): the block cursor with crashes and restarts.

## Atomic and split handlers

`UploaderTasks` splits every handler at each database statement: a task holds its call and the statement it runs next, any number of tasks run in any order, and a task may die between two statements. `UploaderSafety` is about these interleavings. `UploaderService` is the same handlers as methods of an object whose fields are the tables, run without interruption; each method is proved to do what the task does when it runs alone, and that is one of the runs of the tasks (`HandleIsRun`). A generated id (`cuid()`) is drawn in the model when its row is inserted; until then nothing in the handler looks at it. A session hash is fresh.

## Where a promise needs a condition

- The seller payment of a purchase is negative exactly when the royalty's share of the whole price is at least what is due and a half (`RoyaltySplit`); the guard lets such a purchase through (`NegativeSellerPayment`).
- The client rounds a royalty and leaves small ones out, the indexer cuts it and always asks for it. A purchase of an inscription is taken exactly when the deposit is not above the price and a royalty that is due is more than 1, has a fraction below a half and is covered by what is left to pay, with the fee sent the right way (`PurchaseIsTakenExactly`, `RoundedUpRoyaltyIsRefused`).
- The indexer reads several listings only from extension data, and finds the payment to a seller by the first message to that seller. So of a batch it takes exactly those listings with no more due, or no larger deposit, than the first of the same seller, and none if the client was told not to use extension data (`BatchIsFilledExactly`, `BatchIsDepositedExactly`). A batch of inscriptions it never takes (`InscriptionBatchIsRefused`).
- The indexer recovers a printed operation exactly when no delimiter stands where it would be taken for one and no key has two values (`IndexerReadsExactly`); unlike a plain reader it lets commas stand in a value.
- Token amounts are conserved at every point of a run exactly while no order or listing has a fraction of a unit of a half or more, and no purchase is from a closed listing (`SupplyIsConservedExactly`); such an order adds a unit (`HalfAUnitIsCreated`), and a purchase sent again goes through again (`PurchaseGoesThroughAgain`), though not through the client's guard (`GuardedPurchaseCreatesNothing`). Once units have been created a burn can exceed what circulates, and is then only half written; without such burns there is never less than circulates (`NothingGoesMissing`).
- The page computes a new grant from a cached reading of the old one. If that reading is missing or older than the minter's last own grant, the grant falls short (`MissingReadingUnderfunds`, `StaleReadingUnderfunds`); `ReserveKeepsFundsExactly` says exactly when, and `GrantCoversReservations` covers every run in which the reading is current.
- `uploaded >= max_supply` compares counts. It means coverage when the launch's ids lie in range, which the bulk form ensures and the service does not check (`GateExactly`, `GateOpensUncovered`).
- Two uploads at the same time can get one id (`InterleavedUploadsShareAnId`). They do exactly when the first one's row, and any later number, is still missing at the second one's select (`UploadsShareAnIdExactly`); uninterrupted ones never do (`UploadIdIsAbove`).
- Drawn token ids are distinct in every run exactly when each check up to the supply sees all mints before it (`DistinctExactlyWithoutLag`).
- With `multi` on, as in the web app, an operation is handed back and the page makes the transaction of it. Nothing is lost on the way (`HandedBackIsWhole`), so every result about a client transaction here holds of both.
- `prepareTx` defaults to IBC, but `prepareOperation` hands on the key with the value undefined, so options that leave it out take the bank path (`SingleOperation`).
- The client's guard and the page agree on every listing the indexer stores (`DecidersAgree`). On a listing that is not deposited but names the caller as depositor they would not (`DisplayAgreesWithGuards`); the indexer stores none.
- A launch with no `max_supply` always draws id 1, so only one mint ever finds a free id (`Ids`, `FreeIdExists`).
- The indexer skips blocks after a restart if it has no status row (`RestartWithoutRow`), and starts over at block 0 if reading the row fails for another reason (`FailedReadStartsOver`).

## Assumptions

- UTF-8, JSON text and base64 are parameters or are left unprinted; URN parameters are the text JavaScript prints.
- A send authorization loses what is spent, and is gone at zero, as on the Cosmos SDK bank module. The minter does not revoke it, and a stage keeps its price between reservation and mint.
- The chain and the GraphQL service are inputs: listings, heights, estimates and answers are arbitrary.
- In a comparison, a null height or timeout reads as 0, as in JavaScript.
- The indexer's database takes every write, but for a supply that has wrapped. Listings hold amounts below 2^63, the width of their columns, and differences wrap at 2^64 as in the indexer; balances and supplies are unbounded.
- A royalty's share of a price and a listed amount in the smallest unit are whatever their multiplication gave: both sides compute the same share, and of a share only its sign is used. So the fractions the conditions speak of are those of the float64 products: 1.001 tokens at 6 decimals come out just below 1001000 and have a fraction. Fees are exact.
- Hashes of listings are hexadecimal, the chain id has letters, digits and hyphens, JSON of a list of hashes reads back as that list, and the extension option of a batch has no field of 2^32 bytes.
- A send of 0 never gets to the indexer, as the chain refuses it: what settles with nothing left for the seller does so only as far as the indexer goes.
- For settlement, the fee rate and the collection's royalty are the same on both sides, the protocol's fee address takes part in no trade, and the share of a royalty stays below 2^64, past which its conversion is undefined.

## Model

| member | source | states |
|---|---|---|
| ProtoTypes.EncodeInscription | client/src/proto-types/inscription.ts:30-47 | appends the four fields in order, empty ones not at all |
| ProtoTypes.EncodeExtensionData | client/src/proto-types/extensions.ts:41-55 | appends the three fields in order, empty ones not at all |
| ProtoTypes.InscriptionField | client/src/proto-types/inscription.ts:54-71 | one turn of the loop: the field a tag names takes the payload, any other is skipped, malformed input stops it |
| ProtoTypes.InscriptionDecode | client/src/proto-types/inscription.ts:48-74 | the loop ends and returns the decode of what is left of the input, up to `length` if given, or an error |
| ProtoTypes.ExtensionDataField | client/src/proto-types/extensions.ts:62-76 | the same turn for extension data |
| ProtoTypes.ExtensionDataDecode | client/src/proto-types/extensions.ts:56-79 | the same loop for extension data |
| ProtoTypes.Layout | client/src/proto-types/inscription.ts:30-47 | which field goes under which tag, in both messages |
| ProtoTypes.NestedRoundTrip | client/src/proto-types/inscription.ts:30-74 | an inscription inside extension data comes back whole from the two decodes, exactly when every outer field is shorter than 2^32 bytes |
| ProtoTypes.MergedInscriptions | client/src/proto-types/inscription.ts:48-74 | decoding two encodings in a row gives the second's non-empty fields over the first's |
| ProtoTypes.UnknownFieldIgnored | client/src/proto-types/inscription.ts:67-70 | a well-formed field with an unknown number, groups included, can stand at any field boundary of either message without changing the outcome |
| WireFields.RoundTripExactly | client/src/proto-types/extensions.ts:41-79 | decode gives back what was encoded, exactly when all fields are shorter than 2^32 bytes |
| WireFields.MergeLaw | client/src/proto-types/extensions.ts:56-79 | the same merge for any number of fields |
| WireFields.DecodeSplit | client/src/proto-types/inscription.ts:53-72 | decoding a whole number of fields and then more is decoding the rest into the message so far |
| UnknownFields.UnknownIsSkipped | client/src/proto-types/extensions.ts:73-75 | an unknown field before anything, well formed or not, only adds its own size |
| Urn.PrintedUrnParses | client/src/metaprotocol/build.ts:12-23 | a reader of the documented shape recovers every component and the ordered parameters, exactly when no component holds its own delimiter |
| Urn.UrnIsUnambiguous | client/src/metaprotocol/build.ts:12-23 | two clean operations never print the same URN |
| Urn.UrnStaysInCharset | client/src/metaprotocol/build.ts:20-20 | the URN is inside the RFC 2141 character set exactly when its components are |
| Numbers.ParseIntText | client/src/metaprotocol/tx.ts:127-127 | an amount that was printed is read back as itself |
| IndexerParser.ParseProtocolString | indexer/src/indexer/metaprotocol/parser.go:17-68 | the loop yields the specified chain, version, operation and pairs, or an error |
| IndexerParser.IndexerReadsExactly | indexer/src/indexer/metaprotocol/parser.go:17-68 | the indexer recovers a printed operation with all its parameters, exactly under a condition on where delimiters stand and repeated keys |
| Tx.PrepareTx | client/src/metaprotocol/tx.ts:87-196 | the loop over the inscriptions yields the specified messages, options and errors |
| Tx.AssemblyIsHomomorphic | client/src/metaprotocol/tx.ts:105-128 | lists put together concatenate what they carry and their options and add their fees; the whole fails exactly when a part does |
| Tx.OneOptionEach | client/src/metaprotocol/tx.ts:106-119 | in a multi-operation transaction each inscription has its own option at its own place; extension mode works exactly when all have data |
| Tx.AtMostOneAppended | client/src/metaprotocol/tx.ts:130-189 | carried messages stay in front; one message is added for a positive fee, or 1 to oneself when there is no fee and no message; never empty |
| Tx.PathsMoveTheSame | client/src/metaprotocol/tx.ts:131-169 | the IBC and the bank path take the same amounts from every account |
| Tx.ExtensionCarriesInscription | client/src/metaprotocol/tx.ts:61-75 | exactly below the size bound the option decodes in two steps to the inscription's own bytes, under the protocol id "asteroid:" and the name and the version without its first character |
| Tx.OptionsCarryInscriptions | client/src/metaprotocol/tx.ts:87-119 | the memo of a transaction is its URN, and its options carry its inscriptions one for one, each under its own protocol and version |
| Tx.OneInscription | client/src/metaprotocol/tx.ts:87-196 | the transaction of a single inscription, with and without data |
| Operations.SingleOperation | client/src/operations/index.ts:31-58 | an operation always makes a transaction with its URN as memo and its one option, with `multi` on or off; the fee goes by IBC only if the options say so outright |
| Operations.HandedBackIsWhole | app/app/hooks/useSubmitTx.ts:94-107 | an operation that is handed back keeps all its parts, and made into a transaction alone gives what single mode gives under the same settings |
| Marketplace.BuyListing | client/src/operations/marketplace.ts:233-289 | refuses as the guard does, otherwise the royalty and the seller payment |
| Marketplace.Buy | client/src/operations/marketplace.ts:291-362 | the loop drops refused listings, pairs royalties by position, and prepares the operation with the trading fee |
| Marketplace.Deposit | client/src/operations/marketplace.ts:158-201 | the loop drops refused listings and prepares the deposit operation |
| Marketplace.ListCft20 | client/src/operations/marketplace.ts:46-77 | the operation with its five parameters and, for a fee, the deposit base cut to an integer, at least 1 |
| Marketplace.ListInscription | client/src/operations/marketplace.ts:79-108 | the same for an inscription |
| MarketplaceProperties.RoyaltySplit | client/src/operations/marketplace.ts:245-288 | exactly when a royalty is paid; royalty and seller payment make up what is due; the seller payment is negative exactly when total × percentage reaches total − deposit + 1/2 |
| MarketplaceProperties.NegativeSellerPayment | client/src/operations/marketplace.ts:233-288 | a listing the guard accepts and the message of −3 to its seller |
| MarketplaceProperties.BatchIsAccepted | client/src/operations/marketplace.ts:312-327 | a batch takes the accepted listings in input order and pays exactly what they have due |
| MarketplaceProperties.RoyaltiesArePaired | client/src/operations/marketplace.ts:312-327 | the messages of a batch are those of its accepted listings side by side, the k-th listing of the input with the k-th royalty |
| MarketplaceProperties.LastRefusalIsReported | client/src/operations/marketplace.ts:312-331 | the reason a batch reports is that of the last refused listing, and there is none exactly if none was refused |
| MarketplaceProperties.BuyFeeIsFeeDue | client/src/operations/marketplace.ts:346-359 | the fee text is read back as the share of the proceeds rounded to nearest, at least 1 |
| MarketplaceProperties.BatchBuyConserves | client/src/operations/marketplace.ts:291-362 | the final transaction, with `multi` on or off, takes from the buyer what the accepted listings have due plus the one fee message, pays each with its own royalty, and names exactly these listings in order |
| MarketplaceProperties.BatchIsNamed | client/src/operations/marketplace.ts:333-361 | the memo of the transaction parses to the one listing, or its one option decodes to all of them in order; only a single empty hash goes unnamed |
| MarketplaceProperties.DepositsAreAccepted | client/src/operations/marketplace.ts:169-178 | a batch deposit takes the listings the guard accepts, in order, and pays each seller its deposit |
| MarketplaceProperties.RefusedExactly | client/src/operations/marketplace.ts:114-231 | for each reason, exactly which listings the two guards refuse for it |
| MarketplaceProperties.GuardsMeetAtTimeout | client/src/operations/marketplace.ts:129-145 | on a live deposited listing the depositor can buy up to the timeout height and anyone can deposit from it on, both only at it |
| ListingDisplay.DisplayAgreesWithGuards | app/app/api/marketplace.ts:32-57 | Buy is shown exactly when the buy guard accepts; Reserve is refused in exactly one case; Reserved is refused except at the timeout height |
| MarketLedger.GetBaseTokensSent | indexer/src/indexer/metaprotocol/helper.go:18-53 | the first bank send to the receiver, if it is uatom and an unsigned 64-bit number |
| MarketLedger.GetBaseTokensSentIBC | indexer/src/indexer/metaprotocol/helper.go:57-80 | the first transfer, if it takes the channel to the receiver; one in another denom crashes the indexer, which indexes an amount that is not there |
| MarketMoves.BalancesMove | indexer/src/indexer/metaprotocol/cft20.go:330-821 | for every accepted operation, token and account: who gains and who loses how much; a buyer gains what is bought, a seller what is delisted, nobody else anything |
| MarketMoves.OwnersMove | indexer/src/indexer/metaprotocol/marketplace.go:591-1080 | who owns each inscription after an operation: the market, the buyer, the seller again, or the one it is sent to |
| MarketMoves.ListingsMove | indexer/src/indexer/metaprotocol/marketplace.go:110-1080 | what becomes of the listings: the terms of a new one, the depositor and timeout, filled, cancelled; all others stay |
| MarketMoves.OrdersMove | indexer/src/indexer/metaprotocol/cft20.go:517-821 | the same for the orders of the token protocol |
| MarketMoves.TokensMove | indexer/src/indexer/metaprotocol/cft20.go:141-515 | what becomes of the tokens and of what circulates of each |
| MarketMoves.TakenExactly | indexer/src/indexer/metaprotocol/cft20.go:141-821 | exactly when each operation but a deposit or a purchase is taken |
| MarketMoves.CrashesExactly | indexer/src/indexer/metaprotocol/helper.go:57-80 | an operation that gets to its fee and does not find it stops the indexer exactly if fees come by IBC and the first transfer is in another denom; nothing else stops it |
| MarketProcess.Processor.DepositOn | indexer/src/indexer/metaprotocol/marketplace.go:110-180 | the checks in order, then the depositor and the new timeout |
| MarketProcess.Processor.BuyCft20 | indexer/src/indexer/metaprotocol/marketplace.go:182-270 | the checks in order, then the filled listing and the buyer's balance |
| MarketProcess.Processor.BuyInscription | indexer/src/indexer/metaprotocol/marketplace.go:959-1080 | the checks in order with the royalty, then the filled listing and the new owner |
| MarketProcess.Processor.DelistEntry | indexer/src/indexer/metaprotocol/marketplace.go:775-890 | the checks in order, then the cancelled listing and what goes back to the seller |
| MarketProcess.Processor.ProcessDeposit | indexer/src/indexer/metaprotocol/marketplace.go:759-773 | every listing is tried in turn; it fails only if none goes through |
| MarketProcess.Processor.ProcessBuyCft20 | indexer/src/indexer/metaprotocol/marketplace.go:943-957 | the same for purchases |
| MarketProcess.Processor.ProcessTransaction | indexer/src/indexer/metaprotocol/marketplace.go:396-957 | the URN is read, chain and version are checked, the listings are taken from the URN or the extension option, and the operation runs |
| MarketProcess.MemoReadsExactly | indexer/src/indexer/indexer.go:346-355 | a memo is read as a name and a specific text exactly if it is made of them and of permitted characters |
| MarketProcess.SenderExactly | indexer/src/indexer/types/types.go:415-438 | the sender is where the first message with an address comes from |
| MarketProcess.OthersDoNothing | indexer/src/indexer/metaprotocol/marketplace.go:396-422 | whatever changes the tables or counts as done names the marketplace, this chain and version v1 |
| MarketSafety.StepAccounted | indexer/src/indexer/metaprotocol/cft20.go:330-821 | an operation changes what is held and for sale, less what circulates, by exactly what it creates less what a burn beyond the circulation loses |
| MarketSafety.SupplyIsConservedExactly | indexer/src/indexer/metaprotocol/marketplace.go:423-589 | in every run what is held and for sale is what circulates, at every point, exactly if no operation rounds a listing up or buys from a closed one; what circulates stays within the supply |
| MarketSafety.NothingGoesMissing | indexer/src/indexer/metaprotocol/cft20.go:448-515 | in runs whose burns stay within what circulates there is never less than circulates, and no more at the end exactly if nothing was created |
| MarketSafety.HalfAUnitIsCreated | indexer/src/indexer/metaprotocol/cft20.go:567-590 | an order that takes one unit and offers two |
| MarketSafety.PurchaseGoesThroughAgain | indexer/src/indexer/metaprotocol/marketplace.go:182-270 | an accepted token purchase, sent again, is accepted again |
| MarketSafety.GuardedPurchaseCreatesNothing | client/src/operations/marketplace.ts:203-231 | a purchase the client's guard accepts is from an open listing |
| MarketCustody.ListedOnceAndHeld | indexer/src/indexer/metaprotocol/marketplace.go:591-1080 | in every run an inscription has at most one open listing and then belongs to the market; a purchase gives it to the buyer and leaves no listing open |
| MarketCustody.DecidersAgree | indexer/src/indexer/metaprotocol/marketplace.go:129-135 | on every stored open listing the client's guards, the page and the indexer's deposit check agree, and for the seller the page and the indexer's check of a delisting |
| Settlement.PurchaseSettlesExactly | indexer/src/indexer/metaprotocol/marketplace.go:1001-1063 | the payment check on the client's purchase of one inscription passes exactly under a condition on listing, royalty and fee path |
| Settlement.RoundedUpRoyaltyIsRefused | client/src/operations/marketplace.ts:261-276 | a listing the guard accepts, the messages the client sends for it, and that it does not settle |
| Settlement.BatchSettlesExactly | indexer/src/indexer/metaprotocol/marketplace.go:213-247 | the payment check on a batch of tokens passes for exactly the listings with a deposit within the price and no more due than the first one of the same seller |
| Settlement.ListingPaysItsFeeExactly | client/src/operations/marketplace.ts:46-108 | the transaction of a new listing sends its fee and nothing else, and the indexer's fee check passes exactly if the fee goes the way it looks, and never for one less |
| Delivery.HashesAreRead | indexer/src/indexer/metaprotocol/marketplace.go:78-108 | the indexer reads the listings the client named: one always, several only from extension data |
| Delivery.PurchasesFill | indexer/src/indexer/metaprotocol/marketplace.go:943-957 | a batch of purchases fills exactly the named listings that pass the checks, whatever the order and repetition |
| Delivery.PurchasesPay | indexer/src/indexer/metaprotocol/marketplace.go:254-267 | and their sender gains exactly what the filled listings offer, once for each time one is named; no other balance changes |
| Delivery.PurchasesCount | indexer/src/indexer/metaprotocol/marketplace.go:943-957 | the operation counts as done exactly if one of the named listings passes the checks, or none is named |
| Delivery.DepositsLand | indexer/src/indexer/metaprotocol/marketplace.go:759-773 | a batch of deposits lands on exactly the named listings that pass the checks |
| Delivery.DepositsCount | indexer/src/indexer/metaprotocol/marketplace.go:759-773 | the same for deposits |
| Delivery.BatchIsFilledExactly | client/src/operations/marketplace.ts:291-362 | after the indexer processed the client's batch purchase of tokens, a listing is filled exactly if the names could be read, the fee arrives, and the condition above holds; no other listing changes |
| Delivery.BatchPaysOutExactly | indexer/src/indexer/metaprotocol/marketplace.go:182-270 | after the client's batch purchase the buyer has gained exactly what the listings that meet the condition offer, and no other balance of any token changes |
| Delivery.BatchIsDepositedExactly | client/src/operations/marketplace.ts:158-201 | the same for deposits, with the new depositor and timeout |
| Delivery.PurchaseIsTakenExactly | indexer/src/indexer/metaprotocol/marketplace.go:959-1080 | the client's purchase of one inscription is taken, with its new owner, exactly under the condition, and else changes nothing |
| Delivery.DelistingIsTakenExactly | client/src/operations/marketplace.ts:110-112 | the client's delisting is taken exactly if the seller asks for an open listing no running deposit holds; then the listing is cancelled and the goods are the seller's again, else nothing changes |
| Delivery.InscriptionBatchIsRefused | indexer/src/indexer/metaprotocol/marketplace.go:959-971 | a purchase of several inscriptions in one transaction is never taken |
| Stages.SortIsStable | app/app/api/launchpad.ts:176-176 | the sort orders by price, permutes, and keeps the order within a price |
| Stages.GetActiveStageDetail | app/app/api/launchpad.ts:174-194 | sorts its array in place and returns a cheapest usable stage, else a most expensive active one, else nothing |
| Stages.GetActiveOrFirstStage | app/app/api/launchpad.ts:196-199 | the first active stage, else the first one, else nothing |
| Stages.PageMintsWhenUsable | app/app/components/MintInscription.tsx:58-67 | the page's two checks of the offered stage pass exactly when some active stage is usable |
| Stages.OfferExactly | app/app/api/launchpad.ts:174-194 | in dates, prices and limits: none is offered exactly if none has begun and not ended, and one that is open to mint is never offered behind a dearer one |
| TokenDraw.DrawFree | uploader/src/scripts/mint-bot.ts:138-144 | the redraw loop ends on every stream that hits a free id, with the first free draw |
| TokenDraw.FreeIdExists | uploader/src/scripts/mint-bot.ts:134-144 | a draw can end the loop exactly when fewer ids are minted than there are to draw |
| TokenDraw.MintsAreDistinct | uploader/src/scripts/mint-bot.ts:134-144 | when each check sees all earlier mints, ids are distinct and a free one is left exactly while the supply is not used up |
| TokenDraw.LaggingCheckRepeats | uploader/src/scripts/mint-bot.ts:139-143 | for every check that misses an earlier mint while ids last there is a run that repeats an id |
| TokenDraw.DistinctExactlyWithoutLag | uploader/src/scripts/mint-bot.ts:134-144 | every run has distinct ids exactly when each check up to the one after the last id sees all earlier mints |
| TokenDraw.Selection.GetUniqueRandomItem | app/app/utils/random.ts:5-15 | a new item of the list, recorded in the shared set |
| TokenDraw.Selection.GetTwoUniqueRandomItems | app/app/utils/random.ts:17-25 | two items, different from each other and from all earlier ones |
| MintBot.MintTx.CalculateFee | uploader/src/scripts/mint-bot.ts:47-90 | the second estimate's fee message replaces the first's |
| MintBot.ProcessMintReservation | uploader/src/scripts/mint-bot.ts:155-192 | the signed transaction inscribes the data under its hash, as a reader of its memo and option finds, and its messages are the self-send, the stage price to the creator if any, and the reimbursed fee; or the check's error |
| MintBot.InscribeIsSelfSend | client/src/metaprotocol/tx.ts:170-189 | an inscription without a fee is 1 uatom sent to oneself |
| MintBot.ExactSpend | uploader/src/scripts/mint-bot.ts:155-189 | all wrapped messages together take exactly the amount checkGrant compares |
| MintBot.ExactReceipts | uploader/src/scripts/mint-bot.ts:155-189 | for every account: the creator gets the stage price, the bot the fee, the minter 1, nobody else anything |
| MintBot.CheckGrantIsExact | uploader/src/scripts/mint-bot.ts:92-120 | the messages go through one after the other exactly when checkGrant lets them, and leave the limit less the required amount |
| Budget.ReserveKeepsFundsExactly | app/app/components/MintInscription.tsx:81-115 | a new grant adds, for each reservation, the stage price and 100000 to the reading, and covers everything owed exactly when the reading did |
| Budget.MintKeepsFundsExactly | uploader/src/scripts/mint-bot.ts:113-119 | a mint keeps the limit sufficient exactly while the slack covers what the fee exceeds its allowance by |
| Budget.GrantCoversReservations | uploader/src/scripts/mint-bot.ts:92-120 | after every run with current readings and fees within the allowance, each limit covers all open reservations and checkGrant rejects none |
| Budget.MissingReadingUnderfunds | app/app/components/MintInscription.tsx:83-83 | a grant made before the limit is read leaves half of what is owed uncovered |
| Budget.StaleReadingUnderfunds | app/app/components/MintInscription.tsx:83-83 | so does one made from a reading older than the minter's last grant |
| UploaderTables.MaxNumber | uploader/src/main.ts:370-374 | the largest id of a launch, or none |
| UploaderSafety.TablesStayConsistent | uploader/src/main.ts:60-160 | in every interleaving keys are unique, and every row's launch has a launchpad row whose creator holds a verified session |
| UploaderSafety.NothingIsTakenBack | uploader/src/main.ts:327-331 | from any point to any later one rows keep launch, id, name and uploaded mark, launchpad rows keep their folder, verified sessions stay |
| UploaderSafety.AdvanceKeepsTask | uploader/src/main.ts:239-335 | each statement of a handler leaves what the next one relies on |
| UploaderSafety.TaskStable | uploader/src/main.ts:239-394 | what a handler relies on stays true whatever other handlers do |
| UploaderSafety.BulkUploadProtocol | uploader/src/main.ts:239-335 | after an answered bulk upload the confirm is never refused in any interleaving; unless killed it succeeds, and its ids are uploaded from then on |
| UploaderService.Uploader.CreateSession | uploader/src/main.ts:99-127 | the session of an address, made if there is none |
| UploaderService.Uploader.VerifySession | uploader/src/main.ts:129-160 | marks the session if the signature is its address's |
| UploaderService.Uploader.BulkUpload | uploader/src/main.ts:239-296 | the uninterrupted handler does what its task does alone |
| UploaderService.Uploader.BulkConfirm | uploader/src/main.ts:298-335 | the uninterrupted handler does what its task does alone |
| UploaderService.Uploader.Upload | uploader/src/main.ts:337-394 | the uninterrupted handler does what its task does alone |
| UploaderService.Uploader.Confirm | uploader/src/main.ts:441-491 | the uninterrupted handler does what its task does alone |
| UploaderService.HandleIsRun | uploader/src/main.ts:99-491 | an uninterrupted handler is one of the runs of the interleaved tasks, from any point |
| UploaderService.BulkConfirmRefinesConfirm | uploader/src/main.ts:298-335 | the bulk confirm does what single confirms of its ids do, in any order and repetition, missing ids skipped |
| UploaderService.UploadIdIsAbove | uploader/src/main.ts:370-386 | an uninterrupted upload gets an id above every id of the launch and adds the one row for it, named by the id, a dot and the extension |
| UploaderService.UploadIsAnsweredExactly | uploader/src/main.ts:337-394 | an upload is answered exactly if the session is verified, the launch is the caller's or has no launchpad row, and the name fits; without a row the launch becomes the caller's in a new folder |
| UploaderService.BulkUploadIsAnsweredExactly | uploader/src/main.ts:239-296 | the same for a bulk upload, whose names must all fit |
| UploaderService.ConfirmIsAnsweredExactly | uploader/src/main.ts:441-491 | a confirm goes through exactly for a verified session of the launch's creator and an id that has a row, and marks that row only; the others get 403 without a verified session and else 404 |
| UploaderService.BulkConfirmIsAnsweredExactly | uploader/src/main.ts:298-335 | the same for a bulk confirm, which asks for no rows |
| UploaderService.VerifyIsAnsweredExactly | uploader/src/main.ts:129-160 | a session is verified exactly by its own address's signature, and no other is touched |
| UploaderService.CreateHandled | uploader/src/main.ts:99-127 | an address gets the hash of the session it has, or a new one that is not verified |
| UploaderRace.UploadsShareAnIdExactly | uploader/src/main.ts:337-394 | of any two answered uploads, with any handlers at any time in between, exactly when the later select takes the same id and when it takes a smaller one, with rows of the launch at the first select and without |
| UploaderRace.InterleavedUploadsShareAnId | uploader/src/main.ts:370-386 | two interleaved uploads get one id and one row |
| UploaderService.FirstWriterWins | uploader/src/main.ts:68-75 | the inserts leave old rows alone, give every id a row, and name a new row after the first item with its id |
| UploaderService.BulkUploadIsIdempotent | uploader/src/main.ts:239-296 | a second call with the same items gets the same answer and changes nothing |
| Coverage.ListAgreesWithSingle | uploader/src/main.ts:162-200 | a launch is in the grouped list once exactly when it has a row, with the counts of the single query |
| Coverage.TotalCount | uploader/src/main.ts:162-200 | the total is the number of the rows of the launch |
| Coverage.GateExactly | app/app/routes/app.launchpad._index.tsx:33-42 | a launch is listed exactly when it is not minted out, has a row, and at least as many uploaded ids lie out of range as are missing inside |
| Coverage.GateMeansCovered | app/app/routes/app.launchpad._index.tsx:41-41 | with ids in range it is listed exactly when not minted out and every id is uploaded, and then every id the bot can draw has its assets |
| Coverage.GateOpensUncovered | app/app/routes/app.launchpad._index.tsx:41-41 | a run of the service after which a launch is listed without the assets of its one id |
| BulkClient.ReadSelection | app/app/components/dialogs/BulkUploadInscriptions.tsx:82-182 | the form's loops yield the specified entries or the first error |
| BulkClient.SelectionIsSound | app/app/components/dialogs/BulkUploadInscriptions.tsx:26-182 | one entry for each id of the files, from the last metadata with it and the mime type of its content file, all ids within 1..max_supply |
| BulkClient.SelectionIsAcceptedExactly | app/app/components/dialogs/BulkUploadInscriptions.tsx:26-182 | exactly which selections the form takes, in terms of its files alone |
| BulkClient.SubmitUploadsEverything | app/app/components/dialogs/BulkUploadInscriptions.tsx:184-209 | if the upload is answered and the confirm runs to its end, every id of the selection is a row marked uploaded from then on |
| BlockCursor.Indexer.Begin | indexer/src/indexer/indexer.go:129-149 | where a process starts |
| BlockCursor.Indexer.OnTick | indexer/src/indexer/indexer.go:164-266 | one tick: wait, die, or complete the block, update the row and move on |
| BlockCursor.NoGapsFromStoredRow | indexer/src/indexer/indexer.go:129-268 | with a stored row, in every run with crashes, restarts and lost updates, the completed heights form one interval, each at most one above the one before |
| BlockCursor.RunsHaveNoGaps | indexer/src/indexer/indexer.go:129-268 | the invariant behind it, and that the stored height never decreases |
| BlockCursor.StoredIsLastCompleted | indexer/src/indexer/indexer.go:258-265 | with no update lost, the stored height is the last one completed and the next is it again or its successor |
| BlockCursor.LifeIsConsecutive | indexer/src/indexer/indexer.go:157-266 | one process life completes consecutive heights, each once |
| BlockCursor.OnlyBelowTheTip | indexer/src/indexer/indexer.go:164-266 | in every run each completed height was done by a tick of its own that saw a tip above it |
| BlockCursor.RestartWithoutRow | indexer/src/indexer/indexer.go:135-143 | with no row a restart goes on at the tip of the moment and leaves a gap exactly when that has moved past the next height |
| BlockCursor.FailedReadStartsOver | indexer/src/indexer/indexer.go:134-266 | after another read error the process does the blocks from 0 again, and the stored height falls back exactly once one of them is done and until as many are done as before |
| BlockCursor.FetchTransactions | indexer/src/indexer/indexer.go:486-580 | the transactions handed on are, in order, those that decode and did not fail; a missing result counts as success |

## Left out

- The writer's and reader's own code, UTF-8, JSON, base64 and hashing: outside the repository or foreign calls.
- Wire types on known fields: the decoders do not look at them, and neither does the model.
- Numbers.ParseInt: does not model leading white space and hexadecimal prefixes, which no fee amount has.
- JavaScript's rounding of large numbers and fractions: uatom are integers and percentages exact reals.
- Timeouts of the IBC message: they only come from the clock.
- The multiplication behind a listing fee: what it gives is an input, the same on both sides.
- The bot's readiness filter and its downloads: branches without state.
- `/inscriptions/:launchHash` and `/inscription/edit`: reads behind the checks that are modelled.
- Column widths other than the name's, and the order in which Postgres returns rows: tables are sequences in insertion order.
- The signed URLs: a response names the folder, the id and the file they are made from.
- `parseMemoAndSource`, escapes in a URN, the numbers in an operation's text, and the collection, launchpad and bridge processors. Tokens the bridge moves in or out are not part of the conservation result.
- The checks of names and addresses, the opening time and the 1 % mint limit of a token, and the price and volume columns: branches without further state.
- cft20.go, inscription.go and the two listing operations of marketplace.go: functions on the tables, not methods that write them.
- A negative amount to burn: its conversion is undefined, and the model refuses it.
- A listing that changes between the client's look and the indexer's.
- A block that is processed a second time after a restart: its transactions then have no id of their own, and rows that need one are refused one by one.
- Transactions of a block that is processed only in part when the process dies: only completed blocks are counted.
