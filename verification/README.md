# PredictionVM: the verified ledger

A Dafny model of the on-chain ledger of PredictionVM, a prediction-market chain, with proofs about single
operations, about the bytes they store and about whole runs.

The chain keeps a byte-keyed key/value store. Three families of entries live in it: native balances, market
records, and share balances (per market, user and share type). Transactions move it: genesis allocations, fee
deductions and credits, `CreateMarket`, `BuyYes` and `BuyNo`.

## How the files fit together

| layer | files |
|---|---|
| machine words, bytes, results | `Words`, `Outcomes` |
| packer and linear codec | `Packers`, `Codec` |
| state keys, the store | `Keys`, `State` |
| storage operations | `Storage` (balances), `MarketStorage` (markets, shares) |
| actions, balance handler, genesis | `Orders` (what both buys share), `BuyYes`, `BuyNo`, `CreateMarkets`, `Controllers`, `Genesis`, `ActionParser` |
| the ledger as three maps, and the proof that the bytes implement it | `Ledgers`, `Refinement` |
| what each operation answers, in stored bytes and plain numbers | `Answers`, and the lemmas on layouts and limits beside the definitions |
| theorems about runs | `Accounting`, `Audit`, `Interleaving`, `Creations`, `Lifecycle`, `Mirror`, `Footprint`, `Atomicity`, `Permissions`, `Chain`, over sums in `Sums` |

Code that changes things step by step is imperative: the packer and the store are classes, keys are filled into
arrays, the codec and genesis loop over their lists, and every `Execute` does the source's reads and writes in its
order. Each method is proved equal to a function on a `View` of the store (its contents, and the keys it refuses
to read or to write). The theorems are about those functions. Both buy actions, whose guard chains differ, are
proved against one function `Orders.Buy` with one condition `Tradable`.

`Refinement.Holds(d, l)` says that the bytes `d` store exactly the ledger `l`; bytes and ledger determine each
other, and `RunSimulates` carries every theorem about ledger runs over to the bytes. Keys outside the three
families may be present from the start and stay untouched.

Arithmetic is that of uint64: `Wrap` reduces modulo 2^64 wherever the code adds or multiplies. Theorems that hold
with wrap-around are stated with it (`Tallied`); those that need its absence say so (`Sound`, `NoWrapRun`), and
`Solvency` proves that a bound on the issued supply makes it absent. `NeverExceedsIssued` needs no such bound.

## What the code does that its comments do not say

Each of these is a lemma, with the exact condition where there is one.

* A balance of exactly zero is stored as eight zero bytes, which `GetBalance` rejects
  (`UnpackUint64(true)`, vendor/github.com/ava-labs/hypersdk/codec/packer.go:89-95). The account can never be
  credited or charged a fee again: `Controllers.DrainedForever`. `Controllers.DrainsIff` says when that happens; a
  credit of zero to a new account is enough.
* A buy is not atomic in general: it can charge the buyer and then fail. `Atomicity.BuyOutcome` and
  `Atomicity.FailureAtomicIff` say exactly when; `Atomicity.HalfBuyReachable` is a run that gets there through a
  product that wraps to zero. With positive share entries, hence in every solvent run, it does not happen on a
  store that refuses nothing. A stored zero of shares locks the holding for good: `Atomicity.LockedForever`.
* `CreateMarket`'s own length limits (256, 256, 512) do not imply that the record fits:
  `CreateMarkets.LimitsAllowTooLarge`.
* `CreateMarket` overwrites a market whose ID is drawn again: `Accounting.CreateTalliedIff`.
* `CreateMarket` does not declare the key it writes: `Footprint.CreateNeverWithinItsKeys`.
* Buys declare their keys for reading and writing but not for allocation, which hypersdk asks for when an entry is
  new. Granted what it declares, a buy succeeds exactly when it is accepted and the buyer already holds shares of
  that side; an accepted first buy at a nonzero cost is refused only after the payment is written:
  `Permissions.BuyUnderItsDeclaration`, `Permissions.FirstBuyNeverSucceeds`. (Undoing a failed transaction is the
  chain's business.)
* The balance handler declares the sponsor's 0x0-prefixed key and reads the 0x3-prefixed one:
  `Permissions.UnreadableBalance`, `Permissions.SponsorOfBuy`, `Permissions.SponsorOfCreate`.
* With what the transactions declare granted and no more, no market and no share ever comes into being:
  `Permissions.NothingTrades`.
* The RPC balance query reads a key that is never written and always answers zero:
  `Controllers.QueryAnswersZero`.
* `BuyYes.Bytes` carries no type byte, but the registered parser expects one:
  `ActionParser.ParserRoundTripIff`.
* Comments in consts/consts.go number the buy actions 1 and 2; by the rules of `iota` `CreateMarketID` is 4 and
  `BuyYesID` 5, and the model follows the code.

## Model

| member | source | states |
|---|---|---|
| `Words.FromBEOfBE` | storage/market.go:87 | big-endian encoding at any width is inverted by decoding, for every number that fits |
| `Words.BEOfFromBE` | vendor/github.com/ava-labs/avalanchego/database/helpers.go:57-68 | every byte string is the big-endian encoding of what it decodes to, so encodings are canonical |
| `Words.HighByteFirst` | vendor/github.com/ava-labs/avalanchego/database/helpers.go:57-68 | the first byte is the most significant, so with the inverse the encoding is big-endian and no other |
| `Packers.Packer.PackFixedBytes` | vendor/github.com/ava-labs/avalanchego/utils/wrappers/packing.go:170-178 | appends the bytes, or sets the sticky error exactly when they would pass the size limit |
| `Packers.Packer.PackStr` | vendor/github.com/ava-labs/avalanchego/utils/wrappers/packing.go:217-225 | 2-byte length and text; fails exactly above 65535 bytes or past the limit |
| `Packers.Packer.UnpackFixedBytes` | vendor/github.com/ava-labs/avalanchego/utils/wrappers/packing.go:182-191 | moves the cursor by n and returns those bytes, or fails without moving exactly when fewer are left |
| `Packers.Packer.UnpackUint64Required` | vendor/github.com/ava-labs/hypersdk/codec/packer.go:89-95 | a big-endian uint64; fails on fewer than eight bytes and on a decoded zero |
| `Codec.FieldsRoundTrip` | vendor/github.com/ava-labs/avalanchego/codec/reflectcodec/type_codec.go:413-423 | for every struct: decoding its encoding followed by anything gives the fields back and leaves the rest |
| `Codec.FieldsCanonical` | vendor/github.com/ava-labs/avalanchego/codec/reflectcodec/type_codec.go:657-669 | only encodings, possibly followed by more bytes, decode |
| `Codec.MarshalInto` | vendor/github.com/ava-labs/avalanchego/codec/reflectcodec/type_codec.go:293-423 | the packing loop succeeds exactly when the whole encoding fits the limit, and then has written it |
| `Codec.UnmarshalFrom` | vendor/github.com/ava-labs/avalanchego/codec/reflectcodec/type_codec.go:501-669 | the reading loop returns exactly what the declarative decoder accepts |
| `Keys.MarketKey` | storage/market.go:84-89 | the buffer ends up as prefix 0x1 and the big-endian ID |
| `Keys.ShareBalanceKey` | storage/market.go:133-143 | prefix 0x2, ID, address, share type, filled at advancing offsets |
| `Keys.BalanceKey` | storage/storage.go:27-33 | prefix 0x3, address, 2-byte chunk count |
| `Keys.StateKeysBalance` | storage/state.go:89-94 | prefix 0x0 and address |
| `Keys.MarketKeyBytes` | storage/market.go:84-89 | 9 bytes: 1, and the rest reads big-endian as the ID |
| `Keys.ShareKeyBytes` | storage/market.go:133-143 | 43 bytes: 2, the ID at 1 to 8, the owner at 9 to 41, the type at 42 |
| `Keys.BalanceKeyBytes` | storage/storage.go:27-33 | 36 bytes: 3, the owner, 0 and 1 |
| `Keys.SponsorKeyBytes` | storage/state.go:89-94 | 34 bytes: 0 and the owner |
| `Keys.ClassifyOfLayout` | storage/market.go:84-89 | a key tells what it was built from: no two cells share a key, within a family or across the four |
| `Keys.LayoutOfClassify` | storage/market.go:133-143 | every byte string is the key of exactly one cell, foreign ones included |
| `Keys.PrefixFree` | storage/storage.go:27-33 | no ledger key is a proper prefix of another |
| `Keys.AddressFromKey` | storage/state.go:98-108 | succeeds exactly on keys that StateKeysBalance builds and inverts it; error by length, then by prefix |
| `Storage.GetBalance` | storage/state.go:32-50 | absent or empty is zero, fewer than eight bytes or a stored zero is an error |
| `Storage.DeductBalance` | storage/state.go:65-75 | refuses exactly what the balance does not cover, otherwise stores the difference |
| `Storage.AddBalance` | storage/state.go:78-86 | stores the sum modulo 2^64 |
| `Storage.GetBalanceFromState` | storage/storage.go:58-84 | decodes the 0x0-prefixed entry, absent as zero |
| `MarketStorage.DecodeIff` | storage/market.go:92-116 | bytes decode to a record exactly when they start with that record's encoding |
| `MarketStorage.DecodeOfEncode` | storage/market.go:67-129 | decoding inverts encoding for every record that can be stored |
| `MarketStorage.RecordLayout` | storage/market.go:67-80 | the stored bytes in full: twelve fields in declaration order, times in two's complement, 2-byte and 4-byte length prefixes |
| `MarketStorage.RecordEncodableIff` | vendor/github.com/ava-labs/avalanchego/codec/reflectcodec/type_codec.go:293-423 | the prefixes hold texts below 2^16 bytes and oracle parameters below 2^31 |
| `MarketStorage.EncodedLength` | storage/market.go:67-80 | a record takes 84 bytes plus its description, oracle source and oracle parameters |
| `MarketStorage.StorableIff` | consts/consts.go:16 | SetMarket's limit of 1024 bytes is met exactly when the three texts sum to at most 940 |
| `MarketStorage.GetMarket` | storage/market.go:92-116 | not found, malformed, or the record that the stored bytes decode to |
| `MarketStorage.SetMarket` | storage/market.go:119-129 | stores the encoding under the record's own ID exactly when it fits, otherwise changes nothing |
| `MarketStorage.GetShareBalance` | storage/market.go:146-164 | a share entry as an amount, read like a balance |
| `MarketStorage.AddShares` | storage/market.go:178-186 | raises the entry modulo 2^64 |
| `MarketStorage.DeductShares` | storage/market.go:190-200 | refuses exactly what the entry does not cover, otherwise stores the difference |
| `BuyYes.ExamineMarket` | actions/buy_yes_action.go:66-102 | the four YES guards together accept exactly tradable markets |
| `BuyYes.Execute` | actions/buy_yes_action.go:57-159 | the effect on the store, partial ones included, is the YES side of one shared specification |
| `BuyNo.ExamineMarket` | actions/buy_no_action.go:51-74 | the three differently ordered NO guards accept exactly the same markets |
| `BuyNo.Execute` | actions/buy_no_action.go:42-127 | the effect on the store is the NO side of the same specification |
| `Orders.Marshal` | actions/buy_yes_action.go:172-182 | Bytes never fails for a buy |
| `Orders.Unmarshal` | actions/buy_no_action.go:160-163 | Unmarshal accepts what the decoder accepts and nothing else |
| `Orders.DecodeOrderIff` | actions/buy_yes_action.go:172-189 | a buy survives its own Bytes and Unmarshal, for all field values, and only its bytes give it back |
| `Orders.OrderLayout` | actions/buy_no_action.go:23-27 | the encoding is ID, amount and price, eight bytes each |
| `Orders.KeysOfBuy` | actions/buy_yes_action.go:44-54 | the three keys a buy declares and uses, byte for byte, share type 0 for YES and 1 for NO, and no others |
| `Orders.TradableIff` | actions/buy_yes_action.go:85-102 | a market takes orders exactly when its status is not 1, 2 or 3 and its end time has not passed, the end itself included |
| `CreateMarkets.Execute` | actions/create_market_action.go:94-169 | validation in order, then one record under the drawn ID |
| `CreateMarkets.ValidIff` | actions/create_market_action.go:102-119 | a proposal is valid exactly with 1 to 256, at most 256 and at most 512 bytes, and now before end before resolution |
| `CreateMarkets.CreateAnswer` | actions/create_market_action.go:102-165 | the answer of every creation on any store, error by error in the source's order; a refused one leaves the store as it was |
| `CreateMarkets.DrawnKey` | actions/create_market_action.go:145 | the ID is the big-endian value of the draw's first eight bytes, and the key is 1 and those bytes |
| `CreateMarkets.CreateDeclares` | actions/create_market_action.go:83-91 | the declared keys are 0 and the creator's address, and the lone byte 1 |
| `CreateMarkets.CreateSucceedsIff` | actions/create_market_action.go:102-165 | succeeds exactly within the three length limits, with now before end before resolution, at most 940 bytes of text, a draw, and leave to write; an existing market plays no part |
| `CreateMarkets.LimitsAllowTooLarge` | actions/create_market_action.go:103-114 | a proposal within all three length limits whose record does not fit |
| `CreateMarkets.Marshal` | actions/create_market_action.go:52-62 | Bytes panics exactly when the three texts sum to more than 998 bytes |
| `CreateMarkets.Unmarshal` | actions/create_market_action.go:65-80 | empty input, wrong type byte, malformed body, or the proposal |
| `CreateMarkets.DecodeProposalIff` | actions/create_market_action.go:52-80 | a proposal comes back exactly from its own bytes and their extensions |
| `CreateMarkets.ProposalRefused` | actions/create_market_action.go:65-80 | what is refused and with which error: empty input, a type byte other than 4, a body that begins with no proposal |
| `CreateMarkets.ProposalLayout` | actions/create_market_action.go:40-62 | the action's bytes in full: 4, then six fields in declaration order |
| `CreateMarkets.ProposalEncodableIff` | actions/create_market_action.go:52-62 | the prefixes hold texts below 2^16 bytes and oracle parameters below 2^31 |
| `CreateMarkets.AcceptedRoundTrips` | actions/create_market_action.go:52-169 | every proposal that Execute accepts is within the bound and survives Bytes and UnmarshalCreateMarket |
| `ActionParser.ParserRoundTripIff` | vm/vm.go:42-47 | a BuyYes comes back through the registered parser exactly when its market ID's top byte is 5 |
| `ActionParser.ParseAnswer` | vm/vm.go:42-47 | the parser's answer to every input: an order exactly for at least 24 bytes starting with 5, and that order's own bytes are the first 24; the error otherwise |
| `Controllers.Controller.CanDeduct` | controller/controller.go:30-39 | accepts exactly what the balance covers |
| `Controllers.Controller.Deduct` | controller/controller.go:41-43 | the fee step on the store |
| `Controllers.Controller.AddBalance` | controller/controller.go:45-47 | the credit step on the store |
| `Controllers.Controller.SponsorStateKeys` | controller/controller.go:25-28 | the one 0x0-prefixed key |
| `Controllers.FeeSequence` | storage/state.go:65-75 | a list of positive fees all succeed exactly when the balance covers their sum; only that balance changes |
| `Controllers.CanDeductForetellsFees` | controller/controller.go:30-43 | CanDeduct on the sum foretells the whole list |
| `Controllers.DrainsIff` | storage/state.go:65-86 | exactly which step leaves an account at a stored zero, zero amounts to an absent account and wrapped credits included |
| `Controllers.ZeroCreditLocks` | storage/state.go:78-86 | a credit of zero to an account without a record succeeds and locks it for good |
| `Controllers.DrainedForever` | storage/state.go:44-49 | in every run a stored zero stays zero and every credit and fee on it fails |
| `Controllers.QueryAnswersZero` | storage/storage.go:58-67 | in every run from a store without a 0x0-prefixed entry for the account the RPC query answers zero, so it is right exactly for accounts without a record |
| `Genesis.InitializeState` | genesis/genesis.go:53-77 | the loop credits in order and stops at the first error, keeping what came before |
| `Genesis.AddressOfIff` | genesis/genesis.go:66-71 | an allocation of at most 33 bytes reaches exactly the account that starts with them and goes on with zeros; 33 bytes are the account itself |
| `Genesis.GenesisOutcome` | genesis/genesis.go:53-77 | for every decodable list: succeeds exactly when no address recurs at a sum of zero modulo 2^64, and then each address has its sum |
| `Genesis.GenesisKeepsPrefix` | genesis/genesis.go:54-72 | any genesis, undecodable and overlong addresses included: credits everything before the first such address or the first account standing at a zero sum, and nothing after it; the error says which |
| `Genesis.GenesisOnBytes` | genesis/genesis.go:54-72 | after any genesis that goes through, the entry under 3, an address, 0, 1 is there exactly when an allocation names the address, and is the sum of those that do, modulo 2^64 |
| `Genesis.GenesisExact` | genesis/genesis.go:53-77 | positive amounts below 2^64 in total: succeeds, exact sums, supply is the grand total |
| `Genesis.GenesisExactOnBytes` | genesis/genesis.go:54-72 | with positive amounts below 2^64 in total that entry reads as the exact sum |
| `Genesis.GenesisAnyOrder` | genesis/genesis.go:54-72 | positive amounts below 2^64 in total go through in every order, and every order leaves the same bytes |
| `Genesis.GenesisOrderIndependent` | genesis/genesis.go:54-72 | with zero or wrapping sums too: two orders of one list that both go through leave the same bytes |
| `Refinement.StoreUnique` | storage/market.go:92-175 | a ledger determines the bytes |
| `Refinement.LedgerUnique` | storage/market.go:92-175 | the bytes determine the ledger |
| `Refinement.RaiseBalance` | storage/state.go:78-86 | AddBalance on bytes commutes with a credit on the ledger |
| `Refinement.DebitBalance` | storage/state.go:65-75 | DeductBalance on bytes commutes with a fee on the ledger |
| `Refinement.RaiseShares` | storage/market.go:178-186 | AddShares commutes with its ledger counterpart |
| `Refinement.DebitShares` | storage/market.go:190-200 | DeductShares commutes with its ledger counterpart |
| `Refinement.StoreRecord` | storage/market.go:119-129 | SetMarket commutes with its ledger counterpart, size limit included |
| `Refinement.BuySimulates` | actions/buy_yes_action.go:57-159 | a buy on bytes, partial failure included, is a buy on the ledger |
| `Refinement.CreateSimulates` | actions/create_market_action.go:94-169 | a creation on bytes is a creation on the ledger |
| `Refinement.RunSimulates` | actions/buy_no_action.go:42-127 | whole runs on bytes are runs on the ledger with the same answers |
| `Answers.AmountIff` | storage/state.go:32-50 | an entry reads as n exactly when it begins with n's eight bytes, n positive, or is absent or empty and n is zero; anything else is malformed |
| `Answers.DebitAnswer` | storage/state.go:65-75 | exact answer and store of a deduction from an entry that counts as n |
| `Answers.RaiseAnswer` | storage/market.go:178-186 | exact answer and store of an addition to it, modulo 2^64 |
| `Answers.MalformedAnswer` | storage/market.go:159-163 | an entry that counts as no amount refuses both and stays |
| `Answers.CanDeductAnswer` | controller/controller.go:30-39 | CanDeduct on stored bytes that count as n |
| `Answers.CanDeductAnswersAsDeduct` | controller/controller.go:30-43 | CanDeduct and Deduct give the same answer, errors included, where the balance may be written |
| `Answers.FundsIff` | actions/buy_yes_action.go:105-120 | a buy reads a balance of n exactly from n's eight bytes, zero included; absent is insufficient funds, other lengths malformed |
| `Answers.QueryIff` | storage/storage.go:58-84 | the query answers n exactly when the entry under 0 and the address is n's eight bytes, or is absent and n is zero |
| `Answers.MarketIff` | storage/market.go:92-116 | a market is read exactly from bytes under 1 and the ID that begin with its encoding; absent and malformed otherwise |
| `Answers.CheckAnswer` | actions/buy_yes_action.go:66-126 | the checks of a buy on stored bytes: order, limits, and the error of each failing one |
| `Answers.RefusalAnswer` | actions/buy_no_action.go:51-96 | the same on the ledger: exactly which buys are not refused, and why the others are |
| `Answers.BuyAnswer` | actions/buy_yes_action.go:57-159 | the answer of every buy on every store, refusals and malformed entries included |
| `Answers.BuyAcceptedIff` | actions/buy_no_action.go:42-127 | on a store that refuses nothing: the exact inputs and bytes on which a buy is accepted |
| `Accounting.TalliedRun` | actions/buy_yes_action.go:135-155 | in every run with fresh IDs each total is the sum of its holdings modulo 2^64, and no shares exist without a market |
| `Accounting.SoundRun` | actions/buy_no_action.go:105-122 | exactly, with positive entries, in every run where nothing wraps |
| `Accounting.CreateTalliedIff` | actions/create_market_action.go:128-163 | a creation keeps the tally exactly when its ID is unused or both totals there were zero |
| `Accounting.Conservation` | storage/state.go:65-86 | over every run: supply plus fees plus charges, plus 2^64 for each credit that wrapped, is the initial supply plus what was issued |
| `Accounting.ConservedIff` | controller/controller.go:41-47 | so tokens are conserved exactly when no credit wraps |
| `Accounting.HoldingIsBought` | actions/buy_yes_action.go:135-146 | in every run each holding is what it was plus the amounts of the successful buys on it, modulo 2^64 |
| `Accounting.ChargedIsProduct` | actions/buy_yes_action.go:122-132 | without product overflow the charges are the exact products |
| `Accounting.NeverExceedsIssued` | actions/buy_yes_action.go:123-151 | in every run whose products fit in 64 bits, balances and totals together never exceed what was there and what was issued, whatever wraps and whatever IDs are drawn |
| `Accounting.Solvency` | actions/buy_no_action.go:93-118 | products and issued supply below 2^64 rule out every wrap-around and make the tallies exact |
| `Audit.StoredSharesAre` | storage/market.go:146-164 | the share entries read off the bytes add up to the ledger's holdings |
| `Audit.StoredSupplyIs` | storage/state.go:32-50 | the balance entries read off the bytes add up to the ledger's supply |
| `Audit.TotalsMatchShares` | actions/buy_no_action.go:105-122 | share accounting stated on the bytes, after any run with fresh IDs from any store whose tallies are right |
| `Audit.StoredMarkets` | actions/create_market_action.go:102-163 | every market record that a run adds decodes with its key's ID, open and pending, and goes back to a creation before its end time |
| `Interleaving.Commute` | actions/buy_yes_action.go:104-155 | neighbouring transactions of different accounts may change places, wrap-around and partial failures included |
| `Interleaving.InterleavingsAgree` | actions/buy_yes_action.go:57-159 | any two interleavings of the accounts' own buys, fees and credits end in one ledger with the same answers |
| `Interleaving.InterleavingsAgreeOnBytes` | actions/buy_no_action.go:42-127 | the same for the byte store and the answers given on it |
| `Creations.CreateCommutes` | actions/create_market_action.go:148-163 | a creation changes places with every transaction that does not buy in its market |
| `Creations.CreationsFirst` | actions/create_market_action.go:94-169 | in a run where no buy precedes its market's creation, all creations may be done first |
| `Creations.InterleavingsWithCreationsAgree` | actions/buy_yes_action.go:57-159 | interleavings that keep each creation ahead of its market's buys end in one ledger with the same answers |
| `Creations.InterleavingsWithCreationsAgreeOnBytes` | actions/buy_no_action.go:42-127 | the same for the bytes |
| `Lifecycle.TermsNeverChange` | actions/buy_yes_action.go:151-152 | with fresh IDs a stored market keeps everything but its totals forever |
| `Lifecycle.Provenance` | actions/create_market_action.go:148-163 | every market of a run goes back to one creation in it, on that proposal's terms |
| `Lifecycle.AddedMarkets` | actions/create_market_action.go:102-163 | the same on the ledger: ID, open, pending, creation before end before resolution |
| `Lifecycle.FreezeAfterEnd` | actions/buy_no_action.go:66-74 | once the clock has passed a market's end time, its record and everyone's shares in it never change |
| `Lifecycle.GrowthRun` | actions/buy_yes_action.go:142-151 | where nothing wraps totals and holdings only grow |
| `Lifecycle.DistinctDrawsAreFresh` | actions/create_market_action.go:128-145 | pairwise distinct draws are enough for the freshness the theorems ask for |
| `Mirror.MirrorStep` | actions/buy_no_action.go:66-122 | BuyNo on the flipped ledger answers as BuyYes on the ledger and ends in the flipped result |
| `Mirror.MirrorRun` | actions/buy_yes_action.go:85-155 | whole runs mirror |
| `Mirror.FlipTwice` | storage/market.go:74-75 | flipping is its own inverse |
| `Mirror.MirrorOnBytes` | actions/buy_no_action.go:42-127 | the same on byte stores |
| `Footprint.BuyWritesDeclaredKeys` | actions/buy_yes_action.go:44-54 | on any store whose record is filed under its own ID a buy writes no undeclared key |
| `Footprint.BuyReadsDeclaredKeys` | actions/buy_no_action.go:33-39 | stores that agree on the declared keys answer alike and still agree there |
| `Footprint.DeclaredKeysIff` | storage/market.go:119-120 | a successful buy keeps to its keys exactly when the record is filed right or the stray bytes were already there |
| `Footprint.ReachableFootprint` | actions/buy_yes_action.go:44-54 | in every run from a store that holds a ledger, buys read and write declared keys only |
| `Footprint.BuyNeedsOnlyDeclaredKeys` | actions/buy_yes_action.go:49-53 | a store that refuses none of the declared keys, new entries included, does with a buy what a store that refuses nothing does |
| `Footprint.Settlement` | actions/buy_yes_action.go:104-155 | what a successful buy found and wrote on any store, byte for byte: keys, balance, shares, and the total of the order's own side in the decoded record |
| `Footprint.CreationWrites` | actions/create_market_action.go:128-165 | a successful creation writes the proposal as a record with status, outcome and totals 0 under 1 and the draw's first eight bytes, and nothing else |
| `Footprint.CreateUndeclared` | actions/create_market_action.go:83-91 | the written key is never among the declared ones |
| `Footprint.CreateNeverWithinItsKeys` | actions/create_market_action.go:83-91 | a store that grants only the declared keys refuses every creation |
| `Footprint.BatchReorder` | actions/buy_no_action.go:33-39 | any order of a batch without common keys gives the same bytes and every buy the same answer |
| `Atomicity.BuyOutcomeAnywhere` | actions/buy_yes_action.go:104-155 | on any store whatever, malformed entries and refusals included: exactly when a buy succeeds, and exactly when a failed one has changed bytes |
| `Atomicity.BuyOutcome` | actions/buy_yes_action.go:128-155 | the same on any store that holds a ledger, in the ledger's terms, with any keys refused |
| `Atomicity.FailureAtomicIff` | actions/buy_no_action.go:98-122 | without refusals a failed step changes bytes exactly when it is an accepted buy of nonzero cost on a stored zero of shares |
| `Atomicity.FailureAtomic` | actions/buy_yes_action.go:128-155 | where share entries are positive, failure leaves every byte as it was |
| `Atomicity.LocksIff` | actions/buy_yes_action.go:142-145 | a step leaves a stored zero of shares exactly when it is an accepted buy whose sum wraps to zero |
| `Atomicity.LockedForever` | storage/market.go:146-186 | in every run a stored zero of shares stays and every buy on it fails |
| `Atomicity.HalfBuyReachable` | actions/buy_yes_action.go:123-145 | a concrete run with wrapped products that ends in a charged and failed buy |
| `Atomicity.MarketStorable` | storage/market.go:119-129 | a stored market can always be stored again with a larger total, at the same length |
| `Atomicity.AbsentLikeZeroIff` | actions/buy_yes_action.go:105-126 | no balance record and a zero balance get different answers exactly for a well-formed order on a tradable market whose cost wrapped to zero |
| `Atomicity.AbsentLikeZero` | actions/buy_no_action.go:79-97 | so without product overflow they are alike, and neither ledger changes |
| `Permissions.SponsorAddsRead` | vendor/github.com/ava-labs/hypersdk/chain/transaction.go:167-190 | a transaction's rights are united: the sponsor's declaration adds reading 0 and its address, and takes nothing away |
| `Permissions.BuyUnderItsDeclaration` | actions/buy_yes_action.go:44-54 | granted what it declares, with any sponsor: a buy succeeds exactly when it is accepted and the buyer holds shares of that side; a failed one has changed bytes exactly when it was accepted at a nonzero cost |
| `Permissions.FirstBuyNeverSucceeds` | vendor/github.com/ava-labs/hypersdk/state/tstate/tstate_view.go:198-243 | without the right to allocate nobody's first buy on a side succeeds |
| `Permissions.AllocationSuffices` | vendor/github.com/ava-labs/hypersdk/state/keys.go:25-32 | with the right to allocate declared for the same three keys, every buy does what it does on a store that refuses nothing |
| `Permissions.CreateUnderItsDeclaration` | actions/create_market_action.go:83-91 | granted what it declares, with any sponsor, a creation fails and changes nothing |
| `Permissions.UnreadableBalance` | controller/controller.go:30-43 | where an account's balance may not be read, CanDeduct and Deduct fail for every amount |
| `Permissions.SponsorOfBuy` | controller/controller.go:25-28 | a buy lets the sponsor's balance be read exactly when the sponsor is the buyer |
| `Permissions.SponsorOfCreate` | vendor/github.com/ava-labs/hypersdk/chain/transaction.go:167-190 | a creation never does |
| `Permissions.NothingTrades` | actions/buy_no_action.go:33-39 | in every run from a ledger without markets, each transaction granted what it declares: no creation and no buy succeeds, and the store is what the credits and fees alone make of it |
| `Chain.ChainTheorem` | genesis/genesis.go:53-77 | from genesis through any run with fresh IDs, fitting products and issued supply below 2^64: nothing wraps, totals match, tokens are accounted for on the bytes, failures change nothing |
| `Chain.ChainMarkets` | actions/create_market_action.go:102-163 | after any genesis that goes through and any run with fresh IDs: every market key decodes to a proper, accounted record with its creation in the run |
| `Chain.FreezeOnBytes` | actions/buy_yes_action.go:90-102 | after the end time a market's record and share entries are frozen byte for byte |

## Left out

- Random draws: the market ID's 32 random bytes are an input of `CreateMarket`, and runs state freshness as a hypothesis; the source does not ensure it.
- Interleaving.InterleavingsAgree: is about buys, fees and credits; `Creations.InterleavingsWithCreationsAgree` adds creations, which must stay ahead of their market's buys.
- Genesis.GenesisOrderIndependent: asks that both orders go through, since a list with zero amounts or wrapping sums can fail in one order only; `Genesis.GenesisOutcome` gives the exact condition for each order, and `Genesis.GenesisAnyOrder` needs no such hypothesis.
- Bech32: decoding and bit conversion of genesis addresses are inputs of the loop, either the decoded bytes or a failure.
- Store internals: what a store refuses to read or to write is a set of keys, and `Permissions` derives it from the declared rights (read, allocate, write); hypersdk's key-chunk limits, the undoing of failed transactions, fee amounts, mempool and signatures are not part of this model.
- Share types other than YES and NO are carried by keys and storage operations, but no action uses them.
- Nil slices: a nil and an empty `OracleParameters` are one value here; both encode to the same bytes.
- Byte aliasing: decoded oracle parameters share memory with the stored bytes in the source; here they are values.
- Packer capacity: a Go slice's spare capacity is not modelled, only its contents and length.
- Partially filled structs: a failed Unmarshal leaves some fields set in the source; here it returns an error only.
- Error text: sentinel errors are kept, wrapped messages and the text CreateMarket returns are not; a successful creation reports its ID.
- EnsureActorHasBalance and ShareTypeToString: the first repeats CanDeduct, the second only names a value.
- Command line, JSON-RPC, VM wiring beyond the action parser, load issuer and test workloads.
- Market resolution, claims and payouts: no action performs them.
