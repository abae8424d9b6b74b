# Crypto volume chatbot: routing, symbol extraction and history

This project models the deterministic core of the server action `continueConversation` of the Crypto-volume-chatbot (a Next.js application), and proves properties of that model. A chat message either asks for the trading volume of a crypto pair on Binance or gets a reply streamed from a language model. The model covers:

- **The intent test** (`JsString`, `Conversation.IsVolumeQuery`). A message is a volume query when its lower-cased text contains `volume` or `binance`.
- **`extractSymbol`** (`Symbols`, `UsdtPattern`). It searches a table of 14 alias→ticker pairs in insertion order. The first alias occurring as a substring of the lower-cased input decides. Otherwise the regular expression `/([A-Z]{3,10}USDT)/i` runs with ECMAScript backtracking semantics: the leftmost start wins, then the longest letter run (at most ten) that `USDT` still follows. Its capture is upper-cased.
  - `Symbols.ExtractSymbol` is an imperative method. Its `for…of` loop with an early return is `Symbols.FindAlias`.
  - `FindAlias` is proved equal to the alias search `Symbols.AliasSearch`, and `ExtractSymbol` to the specification function `Symbols.SymbolOf`. The lemmas then characterise both functions independently.
- **Routing and the conversation history** (`Conversation`). The volume path runs only when a symbol is found. It always records a user turn and a summary turn, whether the exchange answers or not. The streamed path records a user turn and the model's final text when the stream completes, and nothing when it fails. The history starts empty.
- **The base-asset label** `symbol.replace('USDT', '')`, shown under the volume (`Conversation.BaseLabel`).

The JavaScript string operations the core relies on are written out in `JsString`:

- `toLowerCase`/`toUpperCase` on ASCII letters;
- `includes`, as the first-occurrence search StringIndexOf;
- `replace` with a string pattern, which replaces only the first occurrence.

The model provider and the exchange are not modelled as code. Each request carries two outcome values: what the provider's stream would do (`Streamed(finalText)` or `StreamFailed`) and what the exchange lookup would do (`Fetched` or `FetchFailed`). Only the outcome of the path taken is consulted.

Where the code's behaviour differs from how the application is commonly described, the model follows the code:

- An alias in the input does not by itself decide the ticker. The first alias in table order does. "btc ethereum" gives `BTCUSDT`.
- Aliases match as substrings, not words. "The volume of something" is sent to `ETHUSDT`, because "something" holds "eth" (`Conversation.SubstringAliasExample`).
- A token like `[A-Za-z]{3,10}USDT` in the input is not always what the pattern returns. The leftmost-longest match can start inside a longer run of letters.

A failed lookup records the user's turn and one failure turn, like every other exchange (`Conversation.FetchAppends`).

## Model

| member | source | states |
|---|---|---|
| JsString.IndexOfFromFirst | src/app/actions.tsx:37 | `includes`'s search returns the first index at or after the start where the pattern occurs, and none only when it occurs nowhere there |
| JsString.MatchesFromSlice | src/app/actions.tsx:37 | the character-by-character comparison of the search agrees with slice equality |
| JsString.IncludesIff | src/app/actions.tsx:37 | `includes` holds exactly when the pattern occurs at some index |
| JsString.IncludesInSlice | src/app/actions.tsx:106 | whatever occurs in a piece of a text occurs in the text |
| JsString.MissingChar | src/app/actions.tsx:106 | a pattern holding a character the text lacks does not occur in it |
| JsString.CaseRoundTrips | src/app/actions.tsx:84 | lower-casing after upper-casing gives the lower-case form, and vice versa |
| JsString.UpperOfUpper | src/app/actions.tsx:114 | upper-casing a string of upper-case letters leaves it unchanged |
| UsdtPattern.LetterRun | src/app/actions.tsx:112 | the greedy `[A-Z]{3,10}` takes exactly the longest run of letters at the start index, capped at ten |
| UsdtPattern.Backtrack | src/app/actions.tsx:112 | giving letters back finds the largest count of at least three that `USDT` follows, or reports that none does |
| UsdtPattern.AttemptAt | src/app/actions.tsx:112 | an attempt at an index returns the longest match there, and fails only when no letter count matches there |
| UsdtPattern.SearchFrom | src/app/actions.tsx:112 | trying start indices from the left returns the leftmost index with a match and the longest match there, and fails only when no later index matches |
| UsdtPattern.ExecIsLeftmostLongest | src/app/actions.tsx:112 | the match found is (p, k) exactly when p is the leftmost start of any match and k the longest letter count at p |
| UsdtPattern.ExecNoneIff | src/app/actions.tsx:112-113 | the pattern fails exactly when no start index and letter count match |
| UsdtPattern.MatchAtCaseInsensitive | src/app/actions.tsx:112 | with the `i` flag, a match at an index depends only on the input's lower-case form |
| UsdtPattern.ExecCaseInsensitive | src/app/actions.tsx:112 | inputs with equal lower-case forms give the same match position and length |
| UsdtPattern.CaptureCaseInsensitive | src/app/actions.tsx:112-114 | inputs with equal lower-case forms give captures with equal upper-case forms |
| Symbols.AliasSearch | src/app/actions.tsx:105-109 | the index found lies in the part of the table still to be searched |
| Symbols.AliasSearchFirst | src/app/actions.tsx:105-109 | the entry found is the first, in table order, whose alias occurs in the lower-cased input; none is found only when no alias occurs |
| Symbols.AliasSearchAt | src/app/actions.tsx:105-109 | if entry i's alias occurs and no earlier one does, the search stops at i |
| Symbols.AliasSearchNone | src/app/actions.tsx:105-109 | if no alias from an index on occurs, the search from there finds nothing |
| Symbols.AliasSearchNoneIff | src/app/actions.tsx:105-110 | the search finds nothing exactly when no alias of the table occurs |
| Symbols.FindAlias | src/app/actions.tsx:105-109 | the loop with its early return gives the ticker of the first entry whose alias occurs, and null exactly when no alias occurs |
| Symbols.ExtractSymbol | src/app/actions.tsx:83-118 | the method returns the table's ticker for the first alias found, otherwise the upper-cased capture, otherwise null |
| Symbols.FirstAliasWins | src/app/actions.tsx:87-109 | when entry i's alias occurs and no earlier alias does, the result is entry i's ticker, and the pattern is not consulted |
| Symbols.PatternFallback | src/app/actions.tsx:111-115 | when no alias occurs, the result is the upper-cased leftmost-longest match of three to ten letters followed by `USDT` in any case |
| Symbols.SymbolNoneIff | src/app/actions.tsx:105-117 | the result is null exactly when no alias occurs and the pattern has no match |
| Symbols.TableTickerWellFormed | src/app/actions.tsx:87-102 | every ticker of the table is well formed (7 to 14 upper-case letters ending in `USDT`), and is in fact 7 or 8 characters long: three or four letters, then `USDT` |
| Symbols.TickerShape | src/app/actions.tsx:87-102 | three to ten upper-case letters followed by `USDT` make a well-formed ticker |
| Symbols.PatternResultWellFormed | src/app/actions.tsx:112-114 | an upper-cased pattern match is 7 to 14 upper-case letters ending in `USDT` |
| Symbols.SymbolWellFormed | src/app/actions.tsx:87-102 | every non-null result consists of upper-case letters, ends in `USDT` and has length 7 to 14 |
| Symbols.NoAliasInPiece | src/app/actions.tsx:106 | if no alias occurs in a text, none occurs in any piece of it |
| Symbols.MatchLowerIsSlice | src/app/actions.tsx:112-114 | the lower-case form of an upper-cased match is the matching piece of the lower-cased input |
| Symbols.PatternMatchesWhole | src/app/actions.tsx:112-114 | an upper-cased match fed back to the pattern is matched whole, and is all upper-case letters |
| Symbols.PatternResultFixed | src/app/actions.tsx:105-115 | a pattern result fed back to `extractSymbol` comes back unchanged |
| Symbols.TableTickerFixed | src/app/actions.tsx:87-109 | every ticker of the table, fed back to `extractSymbol`, comes back unchanged |
| Symbols.SymbolIdempotent | src/app/actions.tsx:83-118 | feeding any non-null result back to `extractSymbol` returns the same result |
| Symbols.SymbolCaseInsensitive | src/app/actions.tsx:84-114 | changing the case of ASCII letters in the input does not change the result |
| Symbols.EarlierAliasExample | src/app/actions.tsx:87-109 | "btc and eth" gives `BTCUSDT`: the earlier table entry wins |
| Symbols.LongerAliasExample | src/app/actions.tsx:87-109 | "Ethereum volume" is caught by the entry "ethereum", before "eth", and gives `ETHUSDT` |
| Symbols.PatternExample | src/app/actions.tsx:111-115 | "PEPEUSDT" holds no alias and the pattern returns it whole |
| Conversation.VolumeRouteIff | src/app/actions.tsx:37-47 | an input takes the volume path exactly when it mentions "volume" or "binance" and a symbol is found; the symbol fetched is the one found; every other input is streamed |
| Conversation.RouteCaseInsensitive | src/app/actions.tsx:37-40 | the intent test and the path taken do not depend on the input's letter case |
| Conversation.ContinueAppendsExchange | src/app/actions.tsx:62-71 | a request either leaves the history unchanged or appends the input as a user turn followed by an assistant turn, keeping the old history as a prefix |
| Conversation.StreamedAppends | src/app/actions.tsx:60-66 | a completed stream appends exactly the user input and the model's final text |
| Conversation.StreamFailedKeepsHistory | src/app/actions.tsx:69-71 | a failed stream leaves the history as it was |
| Conversation.FetchAppends | src/app/actions.tsx:186-190 | the volume path appends the user input and "Fetched volume for S", or "Failed to fetch volume for S" when the lookup fails, whatever the stream would have done |
| Conversation.ContinueKeepsAlternating | src/app/actions.tsx:62-66 | if user and assistant turns alternate in pairs before a request, they still do after it |
| Conversation.ExchangeKeepsAlternating | src/app/actions.tsx:203-207 | appending a user turn and then an assistant turn keeps the turns alternating |
| Conversation.SessionLength | src/app/actions.tsx:62-66 | after a sequence of requests the history has grown by two turns per request that committed |
| Conversation.SessionAlternates | src/app/actions.tsx:186-190 | a sequence of requests keeps user and assistant turns alternating |
| Conversation.AllCommittedCount | src/app/actions.tsx:62-66 | when every request commits, all of them are counted |
| Conversation.SuccessfulSession | src/app/ai.tsx:11 | from the empty initial history, N committed requests give 2N alternating turns |
| Conversation.BaseLabelRemovesFirst | src/app/actions.tsx:170 | the label removes the first `USDT` only and keeps everything around it; without one the symbol is kept |
| Conversation.BaseLabelOfTicker | src/app/actions.tsx:170 | a base without `USDT` in it is recovered from its ticker |
| Conversation.TableBaseLabels | src/app/actions.tsx:170 | for every ticker of the table the label is the ticker without its `USDT` suffix, for example `BTCUSDT` gives `BTC` |
| Conversation.VolumeRouteExample | src/app/actions.tsx:37-40 | "Ethereum volume" fetches the volume of `ETHUSDT` |
| Conversation.FailedLookupExample | src/app/actions.tsx:203-207 | from the empty history, a failed lookup for "Ethereum volume" leaves the user turn and "Failed to fetch volume for ETHUSDT" |
| Conversation.SubstringAliasExample | src/app/actions.tsx:37-40 | "The volume of something" fetches `ETHUSDT`, because aliases match as substrings |

## Left out

- The language-model stream (`streamText`, the model name, the temperature) and the loop that builds `fullText`. They are a foreign SDK and asynchronous iteration. They appear only as the `StreamOutcome` value, and the prompt sent to the model is not modelled.
- `createStreamableUI`, `reply.update`/`reply.done` and the JSX shown to the user: the spinner, the result card, the error card. These are user-interface state. The returned `ClientMessage`, with its `generateId()` identifier and its display node, is not modelled either.
- `getMutableAIState`: its `get`/`done` are replaced by plain history values passed in and returned.
- The HTTP `fetch`, `response.ok` and `response.json()`. This is network I/O, represented by the `FetchOutcome` value. A failed or non-2xx response, a JSON error and any exception in building the card all lead to `FetchFailed`.
- `parseFloat`, `toFixed`, `toLocaleString` and the sign arrow of the price change. These are floating point and locale formatting.
- `new Date().toLocaleTimeString()`, which depends on the clock and the locale.
- `console.error` logging.
- Case mapping of non-ASCII characters. `Lower`/`Upper` change only ASCII letters and leave every other character as it is. The regular expression has no `u` flag, so its `[A-Z]` with `i` matches exactly the ASCII letters either way.
- src/app/page.tsx, src/app/layout.tsx and the rest of src/app/ai.tsx. These are React state, page layout and SDK wiring. Only the empty initial history of src/app/ai.tsx:11 is used.
- Concurrency: requests are served one at a time, in order (`Conversation.Session`). Two requests whose background tasks overlap are not modelled.
