# Launchpad supply, seller-address memo, sell gateway and line seeding: a Dafny model

This project models five pieces of sequential logic from the covenant marketplace's Cloudflare worker and one of its scripts. The platform, the crypto and the network around them are left out.

- **Launchpad supply accounting** (`Launchpad`). The total follows a fixed precedence: gallery-linked, then parent-linked, then the static inscription list, then 0. The supply snapshot is derived from that total and the live counts. Missing counts default to 0, and negative values are never clamped. Progress is `Math.round(unavailable / total * 100)`, computed in exact rational arithmetic.
- **Seller-address memo** (`SellAddress`). The module's two slots (cached address, in-flight load) are an explicit state record, together with the list of loads started and the callers waiting. Three separate transitions act on it: a caller arrives, a load settles, a waiting caller resumes (its `finally`). The response check is a pure decision on `(ok, parsed body)`, and a fetch that rejects fails the load with its own error.
- **Sell gateway** (`SellGateway`). It checks the request, answering 400 and then 404. Then it derives the actor name `slug:inscriptionId` and passes the actor's reply through. The inscription lookup and the actor are function parameters that may also reject, and every call to them is recorded in a trace.
- **Launchpad progress controller** (`LaunchpadProgress`). It applies the 404 guard, then looks in the edge cache, which is a `map` from cache keys to responses. On a miss it issues three store reads, given as `Result` values. If all three succeed it renders the response and writes it back under the same key.
- **Line-seeding script** (`SpamArgs`, `SpamLines`). This covers `getArg`, `toInt`/`parseInt`, the printable-ASCII test, batch sizing, and the bounded, deduplicating accumulation loop. The model endpoint is an oracle that answers each batch request with text or fails. `cleanLine` is an uninterpreted function parameter.

Supporting modules:
- `Wrappers`: `Option` and `Result`.
- `Json`: JSON values, property reads and truthiness.
- `Decimal`: writing numbers as digits and reading them back.
- `Http`: responses, the `json()` helper and the application's error handler.

Behaviour of the code worth noting:
- The actor key is built from the id of the inscription the store returned, not from the id the caller sent.
- Whether an inscription is "purchasable" is decided inside `loadInscription`, which is not part of this model. The gateway sees only found or not found.
- The address check also rejects an empty-string address, not only a non-string one.
- The memo's `finally` clears the in-flight slot unconditionally.
- The total is not forced to be non-negative. A negative parent count passes straight through.
- A request body that parses to JSON `null` makes the sell handler throw. The handler reads `body.signedPsbt` without optional chaining, so the application's error handler answers 500.
- `new Response(body, { status })` throws for statuses outside 200–599, and also for the null body statuses 204, 205 and 304 because `json()` always passes a body. An actor reply with any of those statuses therefore also ends in a 500.
- Conflict (409) handling, idempotent replay and per-key serialisation belong to the signing-agent actor. That actor is not part of this model.

## Model

| member | source | states |
|---|---|---|
| Launchpad.SourceOf | app/helpers/launchpad.js:4-18 | Each policy falls under exactly one supply rule. The rules are tried in the source's order: a truthy gallery id, then a truthy parent id, then an array of ids, then none. |
| Launchpad.ResolveTotal | app/helpers/launchpad.js:4-18 | A gallery-linked total is the parent's gallery count. A parent-linked total is its child count; a missing parent or count gives 0 in both cases. A static list gives its length; otherwise the total is 0. |
| Launchpad.MissingParentGivesZero | app/helpers/launchpad.js:5-11 | A gallery- or parent-linked collection whose parent inscription is absent has total 0. |
| Launchpad.UnlinkedTotalIgnoresParent | app/helpers/launchpad.js:13-17 | A static-list or unsourced collection's total does not depend on the parent inscription. |
| Launchpad.GalleryLinkTakesPrecedence | app/helpers/launchpad.js:5-7 | With a gallery link, changing the parent link or the id list leaves the total unchanged. |
| Launchpad.ParentLinkTakesPrecedence | app/helpers/launchpad.js:9-11 | With a parent link and no gallery link, changing the id list leaves the total unchanged. |
| Launchpad.RoundedPercent | app/helpers/launchpad.js:27 | The percentage is the nearest integer to `100 * part / whole`, with halves rounding up. |
| Launchpad.RoundedPercentUnique | app/helpers/launchpad.js:27 | Exactly one integer satisfies that rounding condition. |
| Launchpad.RoundedPercentMonotone | app/helpers/launchpad.js:27 | A larger part never gives a smaller percentage. |
| Launchpad.BuildSupply | app/helpers/launchpad.js:20-41 | Absent available/pending counts read as 0, and pending is passed through. `available + unavailable == total`, `minted == unavailable` and `mintable == available`. Sold out holds iff `available <= 0`, and has-mintable is its negation. Progress is 0 when `total <= 0`, otherwise the rounded percentage of unavailable items. |
| Launchpad.ProgressInRange | app/helpers/launchpad.js:25-27 | With `total > 0` and `0 <= available <= total`, progress lies in 0..100. It is 0 when everything is available and 100 when nothing is. |
| Launchpad.ProgressMonotone | app/helpers/launchpad.js:25-27 | With the same total, fewer available items never lower the progress. |
| Launchpad.StaticListExample | app/helpers/launchpad.js:13-39 | A static list of 100 with 40 available and 5 pending gives unavailable = minted = 60, progress 60, not sold out and has-mintable. |
| Launchpad.MissingGalleryCountExample | app/helpers/launchpad.js:5-39 | A gallery-linked collection whose parent has no gallery count has total 0 and progress 0, and is sold out. |
| Launchpad.OverfullExample | app/helpers/launchpad.js:25-35 | Nothing is clamped. Twenty available against a total of ten gives unavailable = minted = -10 and progress -100. |
| Json.ParsedOrEmpty | app/controllers/sell_controller.js:35 | A body that does not parse reads as `{}`; a parsed body is used as is. |
| Decimal.Show | app/controllers/launchpad_progress_controller.js:29 | A number written into a string is a non-empty digit run without a leading zero, and that run denotes the number. |
| Decimal.ShowInjective | app/controllers/launchpad_progress_controller.js:29 | Distinct numbers are written differently. |
| Decimal.LeadingDigits | scripts/generate-opreturn-spam.js:24 | `parseInt` reads the longest prefix made only of digits, and the character after it is not a digit. |
| Decimal.LeadingDigitsOfRun | scripts/generate-opreturn-spam.js:24 | A digit run followed by a non-digit or by the end is read back exactly. |
| Http.Deliver | app/workers/app/index.js:13-16 | A thrown error becomes a plain-text 500 "Internal Server Error"; a returned response goes out unchanged. |
| Http.JsonReply | app/controllers/sell_controller.js:3-8 | It builds a JSON response with the given status and data. It throws exactly when the status lies outside 200–599 or is 204, 205 or 304, which cannot carry the body it always passes. |
| Http.JsonReplyDelivered | app/controllers/sell_controller.js:3-8 | Once delivered, a reply with one of those statuses is a plain-text 500, and any other keeps its status and data. |
| SellAddress.CheckAddressReply | app/utils/sell_address.js:9-15 | A non-ok reply fails with `data.error` when that is a string, and with "Unable to fetch sell address" otherwise. An ok reply succeeds iff `taprootAddress` is a non-empty string, and the result is that string. Any other ok reply fails with "Invalid sell address response". |
| SellAddress.UnparseableReplyFails | app/utils/sell_address.js:9-13 | An unparseable reply counts as `{}` and so always fails, with the message its status selects. |
| SellAddress.Arrive | app/utils/sell_address.js:18-21 | If an address is memoised, the caller gets it at once and the state does not change. Otherwise, if a load is in flight, the caller awaits that same load and no load starts. Otherwise exactly one load, asking the 'sell-address' actor, starts and goes into the slot. |
| SellAddress.LoadVerdict | app/utils/sell_address.js:4-16 | A rejected fetch fails the load with its own error. A reply is judged by the address check. Only an ok reply can succeed, and it yields a non-empty address. |
| SellAddress.Settle | app/utils/sell_address.js:4-16 | A settling load records the verdict on the agent's answer, reply or rejection, and nothing else changes. |
| SellAddress.Resume | app/utils/sell_address.js:22-27 | A resuming caller gets its load's outcome, and the in-flight slot is empty afterwards. Success memoises that non-empty address; failure leaves the memo as it was. |
| SellAddress.SameLoadSameAnswer | app/utils/sell_address.js:22-24 | Two callers awaiting the same load receive the same outcome. |
| SellAddress.FailureRetriesFresh | app/utils/sell_address.js:19-27 | After a failed load resumes without a memoised address, the next caller starts a new load. |
| SellAddress.LoneCaller | app/utils/sell_address.js:18-27 | A single caller from the initial state causes one load. It receives exactly the verdict on the agent's answer, and the address is memoised iff that verdict is a success. |
| SellAddress.Step | app/utils/sell_address.js:18-27 | Every transition preserves the state invariant. Once an address is memoised, an address stays memoised and no load starts. |
| SellAddress.RunKeepsValid | app/utils/sell_address.js:1-27 | In every state reachable by any interleaving, a memoised address is non-empty and every load ever started asked the 'sell-address' actor. |
| SellAddress.MemoisedAddressIsFinal | app/utils/sell_address.js:19 | After an address is memoised, no interleaving of later events starts another load or leaves the memo empty. |
| SellGateway.ActorKey | app/controllers/sell_controller.js:22 | The actor name is the slug, a colon, then the inscription id. |
| SellGateway.ActorKeyInjective | app/controllers/sell_controller.js:22 | For colon-free slugs, equal actor names mean the same collection and the same inscription. |
| SellGateway.SellPayload | app/controllers/sell_controller.js:28-32 | The forwarded body has exactly the fields `collectionSlug`, `inscriptionId` and `signedPsbt`, carrying the slug, the loaded inscription's id and the caller's PSBT. |
| SellGateway.ExecuteSell | app/controllers/sell_controller.js:10-38 | A `null` body throws before any call. A falsy `signedPsbt` gives 400 with no lookup and no actor contact. Otherwise the inscription is looked up exactly once, first. A rejected lookup throws and a missing inscription gives 404, in both cases with no actor contact. A found inscription leads to exactly one POST, to the actor named after the loaded inscription. That actor's status and parsed body, or `{}`, are returned, and a rejected fetch throws. |
| SellGateway.FailuresPastValidationAre500 | app/controllers/sell_controller.js:19-38 | Past validation, a rejected lookup, a rejected actor fetch or an actor status `new Response` refuses all reach the caller as 500. Any other actor status reaches the caller unchanged. |
| SellGateway.MissingPsbtExample | app/controllers/sell_controller.js:16-17 | A body with an inscription id but no PSBT is answered 400 with an empty trace. |
| SellGateway.UnparseableBodyIsMissingPsbt | app/controllers/sell_controller.js:14-17 | An unparseable body is treated as `{}` and answered 400 "Missing signedPsbt" with no calls. |
| SellGateway.KeyFollowsLoadedInscription | app/controllers/sell_controller.js:19-22 | Two requests naming different ids that resolve to the same inscription contact the same actor with the same payload, and get the same outcome. |
| LaunchpadProgress.ProgressKey | app/controllers/launchpad_progress_controller.js:17 | The cache key is a GET for the request URL. |
| LaunchpadProgress.CacheControl | app/controllers/launchpad_progress_controller.js:29 | The header is exactly `public, max-age=0, s-maxage=` followed by the TTL's decimal spelling, then `, stale-while-revalidate=` and the same spelling. The digits after the prefix read back as the TTL. |
| LaunchpadProgress.CacheControlInjective | app/controllers/launchpad_progress_controller.js:29 | The header determines the TTL it was built from. |
| LaunchpadProgress.HandleProgress | app/controllers/launchpad_progress_controller.js:8-33 | A non-launchpad collection gets 404 with no cache or store calls. Otherwise the cache is consulted first under the GET key. A hit returns the cached response with no store reads. A miss issues all three reads; if any fails the request throws and the cache is unchanged. If all succeed, the response is status 200 with the shared-cache header and the snapshot built from the three reads, and it is stored under the same key when the write lands. The cache never gains another key. |
| LaunchpadProgress.MissThenHit | app/controllers/launchpad_progress_controller.js:16-32 | After a miss whose write lands, a request for the same URL by any method returns the same response. That request makes only the cache lookup. |
| SpamArgs.IndexOf | scripts/generate-opreturn-spam.js:16 | The result is the first position of the flag, or -1 exactly when the flag is absent. |
| SpamArgs.GetArg | scripts/generate-opreturn-spam.js:15-21 | An absent flag gives the fallback. Any other result is the non-empty, non-`--` element right after the flag's first occurrence. A non-null fallback never yields null. |
| SpamArgs.GetArgFindsValue | scripts/generate-opreturn-spam.js:15-21 | A flag followed by a usable value, with no earlier occurrence of the flag, yields that value. |
| SpamArgs.GetArgDanglingFlag | scripts/generate-opreturn-spam.js:17-19 | A flag in last position yields the fallback. |
| SpamArgs.TrimStart | scripts/generate-opreturn-spam.js:24 | `parseInt` skips exactly the leading ECMAScript white space. |
| SpamArgs.ParseIntSplits | scripts/generate-opreturn-spam.js:24 | Models `Number.parseInt(value, 10)`. Every input splits into the longest run of leading ECMAScript white space, then an optional sign, then the longest digit run, then a rest not starting with a digit. The result is `None` (NaN) when the digit run is empty, and otherwise the run's value, negated after a minus. ParseIntReadsDigits, ParseIntOfDigits, ParseIntOfNegatedDigits and TrimStart give the same reading for particular inputs. |
| SpamArgs.ParseIntReadsDigits | scripts/generate-opreturn-spam.js:24 | White space, then digits, then a non-digit tail parse to the number the digits denote. |
| SpamArgs.ParseIntOfDigits | scripts/generate-opreturn-spam.js:24 | A bare digit run parses to its value. |
| SpamArgs.ParseIntOfNegatedDigits | scripts/generate-opreturn-spam.js:24 | A minus sign and a digit run parse to the negated value. |
| SpamArgs.ToInt | scripts/generate-opreturn-spam.js:23-26 | The result is the parsed integer when it is positive, and the fallback otherwise, including for a null value. |
| SpamArgs.ToIntRoundTrip | scripts/generate-opreturn-spam.js:23-26 | A positive number written out is read back unchanged. |
| SpamArgs.ToIntRejectsNonPositive | scripts/generate-opreturn-spam.js:25 | Zero and negative numbers give the fallback. |
| SpamArgs.ParseConfig | scripts/generate-opreturn-spam.js:139-159 | Count, batch, minimum bytes and timeout are positive, and the optional settings are positive when given. An absent flag gives the script's default, or no value for the optional ones. A present flag is covered by the lemmas below. |
| SpamArgs.NumericFlagRead | scripts/generate-opreturn-spam.js:15-26 | A positive number after the first occurrence of a flag is what `toInt(getArg(flag), fallback)` reads, whatever the fallback. |
| SpamArgs.ParseConfigReadsNumber | scripts/generate-opreturn-spam.js:139-159 | A positive number given to `--count`, `--batch`, `--min-bytes`, `--timeout`, `--max-output-tokens` or `--max-batches` becomes that setting. |
| SpamArgs.ParseConfigReadsName | scripts/generate-opreturn-spam.js:142-143 | A usable value given to `--model` or `--out` becomes the model or the output path. |
| SpamArgs.GetArgAfterFirst | scripts/generate-opreturn-spam.js:15-21 | After the first occurrence of a flag, `getArg` returns the next element when it is non-empty and not flag-like, and the fallback in every other case, including a flag in last position. |
| SpamArgs.NumericFlagAfterFirst | scripts/generate-opreturn-spam.js:15-26 | `toInt(getArg(flag), fallback)` is the number after the first occurrence of the flag when `parseInt` reads it as positive, and the fallback otherwise. |
| SpamArgs.ParseConfigFallsBack | scripts/generate-opreturn-spam.js:139-159 | If a numeric flag is last or followed by an empty string, another flag, text with no leading number, zero or a negative number, its setting keeps the default. For `--max-output-tokens` and `--max-batches` the setting stays unset. |
| SpamArgs.ParseConfigNameFallsBack | scripts/generate-opreturn-spam.js:142-143 | If `--model` or `--out` is last or followed by an empty string or another flag, the default model or output path is kept. |
| SpamArgs.ParseConfigReadsValue | scripts/generate-opreturn-spam.js:139-159 | Any value that `parseInt` reads as a positive number becomes the setting of the numeric flag before it, leading white space, sign and trailing text included. |
| SpamArgs.DanglingCountFallsBack | scripts/generate-opreturn-spam.js:139 | `--count` as the last argument leaves the count at 10000. |
| SpamArgs.CountOfZeroFallsBack | scripts/generate-opreturn-spam.js:139 | `--count 0` leaves the count at 10000. |
| SpamArgs.CountOfJunkFallsBack | scripts/generate-opreturn-spam.js:139 | `--count abc` leaves the count at 10000. |
| SpamArgs.CeilDiv | scripts/generate-opreturn-spam.js:160 | The result is the least `q` with `a <= b * q`. |
| SpamArgs.MaxBatches | scripts/generate-opreturn-spam.js:159-160 | The batch budget is at least 1. It equals a given `--max-batches`, and otherwise is twice `ceil(count / batch)`, enough for twice the count. |
| SpamArgs.RequestCount | scripts/generate-opreturn-spam.js:164 | A batch asks for `min(batch, count - size)`. |
| SpamArgs.MaxOutputTokens | scripts/generate-opreturn-spam.js:165 | The token budget is the given `--max-output-tokens`, or else `max(800, 25 * requestCount)`. |
| SpamLines.IsAsciiPrintableIffAllPrintable | scripts/generate-opreturn-spam.js:57-59 | The anchored regex `^[\x20-\x7E]+$` matches iff the string is non-empty and every character lies in 0x20..0x7E. |
| SpamLines.Utf8Length | scripts/generate-opreturn-spam.js:181 | The UTF-8 byte length is at least the character count. |
| SpamLines.Utf8LengthOfAscii | scripts/generate-opreturn-spam.js:181 | For printable ASCII, the byte length equals the character count. |
| SpamLines.AcceptedIsLength | scripts/generate-opreturn-spam.js:180-181 | A line is kept iff it is non-empty printable ASCII of at least `minBytes` characters. |
| SpamLines.Split | scripts/generate-opreturn-spam.js:178 | Splitting on newline gives at least one piece, and no piece contains a newline. |
| SpamLines.JoinSplit | scripts/generate-opreturn-spam.js:178 | Joining the pieces with newlines restores the text. |
| SpamLines.CleanedLines | scripts/generate-opreturn-spam.js:178 | Every result is a non-empty cleaned piece, and every non-empty cleaned piece is in the result. |
| SpamLines.CleanedLinesAppend | scripts/generate-opreturn-spam.js:178 | Cleaning distributes over concatenation, so kept lines keep the order of their pieces. |
| SpamLines.AddAll | scripts/generate-opreturn-spam.js:151 | Set insertion keeps the existing elements first and holds no duplicates. Its elements are exactly the old ones plus the added ones. |
| SpamLines.AddAllAppend | scripts/generate-opreturn-spam.js:151 | Adding two runs one after the other equals adding their concatenation. Elements enter the set strictly in order, and the set keeps first-insertion order. |
| SpamLines.ToSet | scripts/generate-opreturn-spam.js:151 | The loaded set has no duplicates and exactly the elements of the loaded array. |
| SpamLines.Absorb | scripts/generate-opreturn-spam.js:179-184 | One batch keeps every existing line first and adds no duplicate. Each added line is acceptable and came from the batch. Starting below `count`, the set never passes `count`. If it ends below `count`, every acceptable line of the batch is in it. |
| SpamLines.AbsorbBatch | scripts/generate-opreturn-spam.js:179-184 | The inner loop, with its `continue`s and its `break`, computes exactly that recursive description. |
| SpamLines.MakeRequest | scripts/generate-opreturn-spam.js:163-176 | Batch `i` asks for between 1 and `batch` lines, and no more than are missing. Its token budget follows the sizing rule, and it carries the run's model, minimum bytes and timeout. |
| SpamLines.CollectBatches | scripts/generate-opreturn-spam.js:159-194 | At most `maxBatches` requests are made. Each one is sized from the set as saved by the batch before. Every saved batch was answered, and what it saved is the inner loop run over that reply's cleaned lines. The run ends in a request failure exactly when the last request got no reply. The set grows from the loaded lines without duplicates and never passes `count`. A failed request ends the run. The run is complete only at `count` and incomplete only once every batch is spent. |
| SpamLines.Generate | scripts/generate-opreturn-spam.js:132-195 | The run ends for a missing API key exactly when the key is absent or empty, and then before anything is read. A loaded set already at `count` sends no request and saves nothing. Otherwise the batch loop's guarantees hold. |

## Left out

- The signing-agent actor (sale decision, conflict handling, idempotent replay, per-key serialisation) is not part of this model. It appears only as an oracle returning a status and a body, or rejecting.
- `Collection.lookup`, `loadInscription`, `parentInscription` and the two count queries are not part of this model. They appear as a collection record, a lookup function and three `Result` values.
- `html_response.js` is not part of this model. The progress response is assumed to be status 200 carrying the given Cache-Control header.
- `launchpad_cache.js` is not part of this model. The TTL constant is a parameter.
- Rendering (`renderLaunchpad`, `renderLaunchpadSales`, `renderLaunchpadProgress`'s template) is not modelled. A rendered progress page is represented by the snapshot it is rendered from.
- Decimal.Show: spells every integer in plain digits. JavaScript writes integers of 10^21 and above in exponent form (`1e+21`), and above 2^53 its digits are not exact. The model spells the cache TTL and command-line numbers this way.
- Launchpad.RoundedPercent: computes `Math.round(u / t * 100)` in exact rational arithmetic. It does not claim bit-exact agreement with IEEE division at .5 boundaries.
- JSON numbers are integers. Fractional numbers and NaN are not modelled.
- The edge cache's TTL expiry and its stale-while-revalidate serving are done by the platform, not by this code. The background `cache.put` is modelled as landing (or not) before the next request.
- When several of the three parallel reads fail, which error `Promise.all` reports is not modelled. The request simply throws.
- SellAddress.Step: the transition system lets a caller arrive between two resumptions of the same settled load. JavaScript's microtask queue runs those resumptions back to back, so the model admits interleavings the runtime does not. For that reason no global at-most-one-load-in-flight property is stated, only the local guarantees listed above.
- SellAddress.MemoisedAddressIsFinal: in those extra interleavings, a caller arriving between two resumptions of one failed load starts a new load. The second resumption's `finally` then clears the slot, so another caller starts a second load alongside it. If both succeed with different addresses, the later resumption replaces the memoised value. The model therefore proves only that an address stays present, not that the memoised value never changes.
- Resolving the actor through `idFromName`/`get` and the `fetch` transport are platform calls. Only the name, URL, method and payload sent are modelled.
- `app/models/store_wallet.js` (key derivation and signing) is out of scope. So are `app/controllers/policy_controller.js`, which only renders the memoised address, and the route table and `scheduled` dispatch in `app/workers/app/index.js`.
- The script's HTTP call to the model endpoint (prompt, headers, timeout abort, response parsing) is an oracle. A request that throws ends the run.
- The script's file reading and JSON/regex parsing in `loadExisting` are not modelled. The loaded lines are an input, assumed to be strings. Each `saveLines` is recorded as a snapshot of the set, and every save is assumed to land. In the script a failing directory creation or file write rejects and ends the run with exit status 1.
- Reading `process.env` is abstracted: the API key is an input to `Generate`. `toFloat` and the temperature, `XAI_BASE_URL` and console output are not modelled.
- `cleanLine`'s regular expressions are not modelled. It is an uninterpreted function parameter.
- SpamArgs.ToInt: `parseInt` returns a double, so digit runs beyond 2^53 lose precision and beyond about 1.8e308 become Infinity, which falls back. The model uses exact integers.
- SpamArgs.MaxBatches: `Math.ceil(count / batch)` is computed exactly. Floating-point division agrees only below 2^53.
- Strings are sequences of Unicode scalar values rather than UTF-16 code units, so lone surrogates cannot be written. This does not change the printable-ASCII verdict.
