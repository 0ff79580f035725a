# TrueMarket client adapter — verified model

`TrueMarketClient` (client/main.ts) reads prediction-market data from an
on-chain helper contract and reshapes it into the SDK's
`PredictionMarketEvent` / `PredictionMarket` records. This project models the
three pieces of logic in it that are not RPC plumbing:

- **The detail → event conversion** (`convertToPredictionMarketEvent`), in
  `market.dfy` (module `Market`), with the string conversions it relies on in
  `text.dfy` (module `Text`): ASCII lower-casing, the decimal form of a
  `bigint`, and the hexadecimal reading done by `parseInt(…, 16)`. A
  `TrueMarketDetail` becomes one event that holds one market. The active flag
  comes from the status code. The funded flag comes from the two pool
  addresses. Slug, image and icon come from the lower-cased address. The
  numeric market id is read from the address's first eight hex digits. The two
  position tokens are Yes then No.
- **The pagination fan-out** of `getActiveMarkets`, in `pagination.dfy`
  (module `Pagination`). With no active addresses it returns nothing.
  Otherwise it requests pages `0 .. ceil(N/50)-1` of 50 each, converts each
  page (`getAllActiveMarketDetails`) and concatenates the pages in page order.
  The contract read behind a page is a function parameter
  `fetch(page, limit)`.
- **The per-URL client cache** of the constructor, in `client.dfy` (module
  `Client`). `ClientCache` holds the process-wide `map` from RPC URL to
  client. The `TrueMarketClient` constructor inserts a new client only when
  the URL is absent, then takes the cached one. `createPublicClient` is
  modelled as handing out a client identity never handed out before.

## Model

| member | source | states |
|---|---|---|
| `Market.Convert` | client/main.ts:138-201 | one detail becomes one event holding exactly one market, and the event's id is the detail's address |
| `Market.IsActive` | client/main.ts:143 | a status is active exactly when it is 1 |
| `Market.IsFunded` | client/main.ts:146-147 | funded exactly when both pools differ from the zero address; a zero pool on either side means unfunded |
| `Market.PositionTokens` | client/main.ts:153-164 | two tokens, Yes then No, with the Yes and No token addresses and the decimal `toString()` form of each price |
| `Market.ConvertActive` | client/main.ts:143 | the event's and the market's `active` are both true exactly when the status code is 1 |
| `Market.ConvertFunded` | client/main.ts:146-147 | `funded` holds exactly when both pools differ from the 40-zero-digit zero address; either pool being zero makes it false |
| `Market.ImageLink` | client/main.ts:150 | the image URL is the fixed prefix, then the lower-cased address, then `.png` |
| `Market.ConvertLinks` | client/main.ts:170-173 | event slug and market slug equal the lower-cased address, contain no upper-case letter, and all four image/icon fields are the URL built from that slug |
| `Market.MarketNumber` | client/main.ts:168 | for a well-formed `0x` + 40-hex-digit address the id is the value of characters 2..9, below 2^32 |
| `Market.ConvertMarketId` | client/main.ts:168 | the market's id is the hex value of address characters 2..9, below 2^32, and the same value is read from the lower-cased slug |
| `Market.MarketNumberCollision` | client/main.ts:168 | the id is not unique: two different well-formed addresses that share their first eight hex digits get the same id |
| `Market.PriceString` | client/main.ts:157 | the price string reads back as the detail's price |
| `Market.PriceStringIsDecimal` | client/main.ts:157 | the zero-price guard changes nothing: every price is written as its plain decimal form, zero as "0" |
| `Market.ConvertPositionTokens` | client/main.ts:153-164 | exactly two tokens: the Yes token then the No token, with prices equal to the decimal `toString()` form of `yesPrice` and `noPrice` (reading back as them), "0" for a zero price |
| `Market.ConvertTexts` | client/main.ts:167-198 | event id is the detail id; title, question and name are the question; both descriptions are `additionalInfo`; `end`/`endDate` are the decimal `toString()` form of `endOfTrading` and `creationDate` that of `createdAt`, each reading back as its number; protocol, region and spread are the fixed values |
| `Market.ConvertAll` | client/main.ts:251-254 | a page of details becomes as many events, event i being the conversion of detail i |
| `Text.ToLower` | client/main.ts:150 | lower-casing keeps the length and lowers each letter A-Z, leaving other characters alone |
| `Text.ToLowerIdempotent` | client/main.ts:172 | a lower-cased string has no upper-case letter and lowering it again changes nothing |
| `Text.IntToString` | client/main.ts:175 | `bigint.toString()`: a minus sign followed by the digits of the magnitude exactly for negative numbers, otherwise the digits alone |
| `Text.NatToString` | client/main.ts:175 | a natural is written as decimal digits with no leading zero, "0" only for zero |
| `Text.DecimalRoundTrip` | client/main.ts:175 | reading back the decimal digits of n gives n |
| `Text.IntRoundTrip` | client/main.ts:192-193 | a `bigint`'s `toString()` form reads back as the same integer |
| `Text.IntToStringInjective` | client/main.ts:192-193 | two integers have the same decimal form only when they are equal |
| `Text.HexValueBound` | client/main.ts:168 | k hex digits hold a value below 16^k |
| `Text.HexDigitIgnoresCase` | client/main.ts:168 | a hex digit stays a hex digit with the same value when lower-cased |
| `Text.HexValueIgnoresCase` | client/main.ts:168 | hex digits read the same in upper and lower case |
| `Text.HexPrefixLength` | client/main.ts:168 | the longest leading run of hex digits: all of it is hex and the next character is not |
| `Text.ParseHex` | client/main.ts:168 | `parseInt(s, 16)` is NaN exactly when s does not start with a hex digit |
| `Text.ParseHexAllDigits` | client/main.ts:168 | on a string of hex digits, `parseInt` reads the whole string |
| `Text.Slice` | client/main.ts:168 | `slice(2, 10)` within bounds is the sub-sequence 2..9, and never longer than its input |
| `Pagination.PageCount` | client/main.ts:213-219 | zero pages exactly for zero addresses; otherwise the fewest pages of 50 that hold them all |
| `Pagination.PageEvents` | client/main.ts:251-254 | a page of events is as long as the page of details fetched, event i being the conversion of detail i |
| `Pagination.Flatten` | client/main.ts:231 | `flat()` yields as many items as all pages together |
| `Pagination.ActiveMarkets` | client/main.ts:207-232 | no addresses gives the empty list; otherwise as many events as all requested pages hold |
| `Pagination.CeilDiv` | client/main.ts:219 | `Math.ceil(n / d)` is the fewest pages of size d that hold n items |
| `Pagination.PageNumbers` | client/main.ts:223-225 | the requested page numbers are 0, 1, …, pages-1 in increasing order |
| `Pagination.PageResults` | client/main.ts:223-228 | one result per request, in request order, each as long as its page of details |
| `Pagination.FlattenAppend` | client/main.ts:231 | flattening distributes over concatenation of page lists |
| `Pagination.PagedPosition` | client/main.ts:231 | when the pages before p are full, item j of page p is item 50p + j of the flattened pages |
| `Pagination.PagedLength` | client/main.ts:218-231 | ceil(N/50) pages of min(50, N - 50p) items flatten to N items |
| `Pagination.FlattenAt` | client/main.ts:231 | item j of page k lands after all items of the pages before k |
| `Pagination.ActiveMarketsEmpty` | client/main.ts:213-215 | with no active addresses the result is empty |
| `Pagination.ActiveMarketsInPageOrder` | client/main.ts:218-231 | the result is the events of pages 0 .. ceil(N/50)-1, each being that page's details converted, concatenated in page order |
| `Pagination.ActiveMarketsConvertsPages` | client/main.ts:223-231 | the result is the conversion of all pages' details concatenated in page order |
| `Pagination.ActiveMarketsPosition` | client/main.ts:223-231 | when earlier pages are full, detail j of page p becomes event 50p + j |
| `Pagination.ActiveMarketsLength` | client/main.ts:218-231 | when page p holds min(50, N - 50p) details the result holds exactly N events |
| `Pagination.SlicePage` | client/main.ts:106-112 | a contract that pages one list returns at most `limit` details: the slice from page·limit up to page·limit + limit or the end of the list, empty past the end |
| `Pagination.SlicesCoverAll` | client/main.ts:218-225 | the ceil(N/50) slices of a list of N details concatenate back to the list |
| `Pagination.ActiveMarketsOfSlicedList` | client/main.ts:207-232 | if the contract pages one list of N details, the result is all of them, converted, in order |
| `Client.ClientCache.constructor` | client/main.ts:33 | the process-wide cache starts empty |
| `Client.InsertIfAbsent` | client/main.ts:41-42 | after insert-if-absent the URL is present, an existing client is kept, a new one is taken only when absent, and no other key is added or changed |
| `Client.InsertIfAbsentIdempotent` | client/main.ts:41-55 | constructing again with the same URL leaves the cache as it is |
| `Client.InsertIfAbsentKeepsInjective` | client/main.ts:41-50 | inserting a newly created client keeps one distinct client per URL |
| `Client.ClientCache.Create` | client/main.ts:42-50 | a created client differs from every cached one |
| `Client.TrueMarketClient.constructor` | client/main.ts:40-57 | the cache afterwards is the insert-if-absent of the URL, unchanged when the URL was cached and otherwise holding one newly created client; the instance's client is the cached client for the URL; the helper address is stored |
| `Client.TwoClients` | client/main.ts:40-57 | two instances share an RPC client exactly when they were built for the same URL; each holds the cached client for its URL; the cache gains exactly the two URLs and keeps every client it already held |

## Left out

- RPC reads through `viem` (`readContract`, `createPublicClient`, `http`, the `cacheTime` and `batchSize` options): the library's behaviour is not part of this model. A page read is the parameter `fetch(page, limit)`. A created client is an identity number.
- Rejected RPC reads in `getActiveMarkets` (client/main.ts:209, 228): a failed address read or page read rejects the whole call, but `fetch` is a total function and the address list is a plain argument, so the model covers only calls whose reads all succeed.
- `getAllActiveMarketsAddress` and `getMarketByAddress`: these are one RPC read each; the model takes the address list as a parameter of `ActiveMarkets` and the detail as the argument of `Convert`.
- The field-by-field copies in `_getMarketDetail` and `_getAllActiveMarketDetails` (client/main.ts:81-97, 114-130): they are the identity on the fields modelled, so `MarketDetail` stands for the record after the copy.
- `Promise.all` concurrency and async ordering: pages are a pure function of their number, collected in request order.
- `console.log` calls in the constructor.
- SDK fields the conversion sets to `undefined` (`rewardsMinSize`, `rewardsMaxSpread`) and SDK fields it does not set: the records hold only the fields the conversion assigns.
- Market.MarketNumber: uniqueness of the numeric id is not claimed, although the comment at client/main.ts:168 calls it unique; `MarketNumberCollision` shows two different well-formed addresses that share it.
- Pagination.ActiveMarketsOfSlicedList: it assumes that the helper contract's `getAllActiveMarketDetails(page, limit)` returns the zero-based slice from page·limit of one list, as `SlicePage` states; the helper contract is not part of this model, and the other `getActiveMarkets` lemmas hold for any page contents.
- Client.TrueMarketClient.constructor: the static `clientCache` is an explicit `ClientCache` argument; the cache is shared by all instances only when callers pass the same object, as `TwoClients` does.
- Text.ToLower: lower-cases only ASCII A-Z, not the full Unicode mapping of `toLowerCase`; addresses are ASCII.
- Text.ParseHex: does not model `parseInt`'s skipping of leading white space, its sign, or its `0x` prefix on the sliced text; for well-formed addresses the slice holds only hex digits, where the model is exact.
- Pagination.CeilDiv: integer ceiling division replaces the floating-point `Math.ceil(totalCount / pageSize)`; the two agree for every array length.
- `Number(status)` is taken as exact: only the `bigint` 1 converts to the number 1.
