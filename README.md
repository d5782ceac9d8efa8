# parse_rate_bot: the rate fetcher and the callback dispatcher

A Dafny model of the decision logic of a Telegram bot that quotes a USDT/THB
rate. It covers two pieces of `main.go`:

- **The rate fetcher** (`getUSDTPrice`). One GET goes to the exchange's
  level-1 summary. The body must decode as a JSON array of strings. Each
  string is decoded on its own as an instrument record, and records that fail
  to decode are skipped. The result is the last traded price of the first
  record whose instrument identifier is 5. If no record matches, the result is
  a "not found" error. The HTTP call, the status check, the body read and the
  outer decode each have their own error before any record is examined.
  (`RateFetcher.dfy`)
- **The callback dispatcher** (`callbackHandler`) and its one process-wide
  variable, `lastMessageID`. The handler parses the button payload as a
  commission, then fetches the rate. It picks the internal formula when the
  commission equals 0.26 and the withdrawal-fee formula otherwise. It deletes
  the previously recorded reply when `lastMessageID` is not 0, sends the new
  reply, and stores the id of the sent message. That id is 0 when the send
  failed, because the handler discards the send error. A failed parse or a
  failed fetch sends one error message and stops. (`Callback.dfy`)

The libraries are outcomes given as inputs: the HTTP client, `io.ReadAll`,
`encoding/json`, `strconv.ParseFloat` and the Telegram client's `Send`. A
query (`Callback.Query`) carries the chat id, the parsed payload
(`None` = parse error), the HTTP outcome (`RateFetcher.HttpResult`, in which
each inner record is an `Option<Instrument>`, with `None` = inner decode
error) and what the reply send returned. The handler yields the ordered list
of platform actions it issues: `FetchRate`, `SendError`, `DeleteMessage`,
`SendReply`. That list is paired with the new `lastMessageID`.
`Callback.Handle` specifies one callback. `Callback.Run` specifies callbacks
handled one after another. The class `Callback.Bot` holds the state, and its
methods are proved equal to those functions.

Floats are kept as their binary64 bit patterns (`Floats.Float64`). Go's `==`
is modelled with its NaN and signed-zero rules. Comparing with 0.26 then
turns out to be identity with the bit pattern `0x3FD0A3D70A3D70A4`. A reply
records which formula produced it, together with the commission and rate
it was given. The formulas themselves are not computed (see Left out). The
reply text is `Callback.Prefix` of the formula followed by the formatted
numbers.

The code reports five distinct failure points in `getUSDTPrice` (request
error, non-200 status, body read error, outer decode error, not found).
Documentation of the bot groups them into three kinds. The model follows the
code, and as in the code the handler reports all five with the same message.

Files: `Wrappers.dfy` (Option, Result), `Floats.dfy`, `RateFetcher.dfy`,
`Callback.dfy`.

## Model

| member | source | states |
|---|---|---|
| `RateFetcher.SelectQuote` | main.go:60-70 | the loop's result is the reference search `FirstQuote`: skip entries that failed to decode, return the first price with instrument id 5, else not found |
| `RateFetcher.GetUSDTPrice` | main.go:37-70 | the method returns `Fetch` of the library outcomes: each early failure as its own error, then the record search |
| `RateFetcher.FirstQuoteFound` | main.go:60-67 | if entry i is the first decoded record with id 5, the search returns exactly that record's `LastTradedPx` |
| `RateFetcher.FirstQuoteSuccessIsFirstMatch` | main.go:60-67 | conversely, every successful search returns the price of some first matching record |
| `RateFetcher.FirstQuoteNotFound` | main.go:60-70 | the search fails only with not found, and it fails exactly when no entry both decoded and has id 5, whatever other records decoded |
| `RateFetcher.FirstQuoteAppend` | main.go:60-68 | searching a + b gives a's result if a has a match, otherwise b's result (first match wins) |
| `RateFetcher.InsertFailedDecode` | main.go:61-64 | inserting an entry that failed to decode anywhere never changes the outcome |
| `RateFetcher.SkipFailedDecodes` | main.go:61-64 | removing every entry that failed to decode never changes the outcome |
| `RateFetcher.FetchFailsBeforeRecords` | main.go:39-58 | a request error, a non-200 status (with any body), a read error or an outer decode error yields that error and never not found; once past them the outcome is the record search |
| `RateFetcher.FetchSucceedsIff` | main.go:37-70 | the fetch yields a rate if and only if the records are reached and one matches, and the rate is then the first match's price |
| `Floats.EqualCostBasisIsIdentity` | main.go:116 | Go float equality with 0.26 holds exactly for the bit pattern of 0.26 (no NaN or zero case) |
| `Callback.FormulaChoice` | main.go:116-121 | the internal formula is chosen exactly when the commission is 0.26, and the withdrawal-fee formula for every other commission; the two reply prefixes differ |
| `Callback.Bot.constructor` | main.go:24 | `lastMessageID` starts at 0 |
| `Callback.Bot.HandleCallback` | main.go:99-134 | the actions issued and the new `lastMessageID` are those of `Handle`, and the state changes only when a reply is sent, to the id the send returned |
| `Callback.Bot.HandleCallbacks` | main.go:155-160 | handling callbacks one at a time issues the concatenated actions of `Run` and leaves the id of the latest reply sent |
| `Callback.ParseFailure` | main.go:101-105 | an unparseable payload issues exactly one error message, no fetch, no delete, no reply, and keeps `lastMessageID` |
| `Callback.FetchFailure` | main.go:107-111 | a failed fetch, for any of its five reasons, issues the fetch and exactly one error message, no delete, no reply, and keeps `lastMessageID` |
| `Callback.ReplyPath` | main.go:116-132 | on success a delete is issued if and only if the old `lastMessageID` is nonzero, that delete targets that id and comes before the reply, the reply is the last action, and `lastMessageID` becomes the sent id (0 after a failed send) |
| `Callback.RunSnoc` | main.go:155-160 | handling one more callback appends its actions and takes its state from where the run left off |
| `Callback.RunPair` | main.go:155-160 | two callbacks in a row issue the first's actions and then the second's, from the state the first left |
| `Callback.RunState` | main.go:124-132 | after any sequence of callbacks, `lastMessageID` is the id that the latest reply's send returned, or the start value if no reply was sent |
| `Callback.SecondReplyDeletesFirst` | main.go:124-132 | of two replying callbacks, the second deletes the message the first sent before its own reply, and deletes nothing if the first send failed |
| `Callback.CrossChatDelete` | main.go:24 | the one slot is shared by all chats: a reply in another chat makes the handler delete the first chat's message id in the second chat |
| `Callback.DeletesOnlySentReplies` | main.go:124-132 | a run deletes only nonzero ids, each the start value or the id of a reply the run sent |

## Left out

- Pricing formulas (`calculateRateWithCommission`, `calculateRateWithInternCommission`, main.go:26-35): these are float64 arithmetic with `math.Round`. A reply records the chosen formula and its two inputs instead of the number.
- HTTP transport, body reading and JSON decoding: these are library code. Their outcomes are inputs (`RateFetcher.HttpResult`), including how each inner string decodes.
- `strconv.ParseFloat` and `fmt.Sprintf`: these are library behaviour on floats. The parsed payload is an input, and the reply text is only its prefix plus opaque formatted numbers.
- The results of the delete and error sends: the code ignores them, so they do not change the model.
- `startHandler`, `MenuButtonKeyboard` and the keyboards (main.go:72-97): these only build and send platform objects.
- `main` (main.go:136-162): loading the environment and `.env`, the fatal and panic paths, and routing `/start` messages are process plumbing. Only the routing of callbacks into the handler is modelled, by `Callback.Bot.HandleCallbacks`, and it handles one update at a time. Any concurrency inside the Telegram client is not modelled.
- The `update.CallbackQuery != nil` guard (main.go:100): every `Callback.Query` is a callback, which is the only way `main` calls the handler.
