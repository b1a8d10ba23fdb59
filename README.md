# coinradar price pipeline, in Dafny

coinradar is a chat bot that answers a `/price` command with the current
USD and RUB prices of BTC, ETH and TON, taken from a quote provider. This
project models the part of `main.py` that decides what to ask the provider
and what to answer:

- **normalisation** (`on_price`): the tokens after the command word are
  lower-cased. With no tokens it falls back to the default coins. Tokens that
  are not symbols of the alias table are dropped, and repeats are dropped in
  first-seen order;
- **identifier list** (`fetch_prices`): the alias lists of the requested
  symbols are joined and de-duplicated keeping first occurrences
  (`dict.fromkeys`);
- **selection** (`fetch_prices`): each requested symbol takes the record of
  the first of its aliases that the provider's answer contains. A symbol with
  none of them present gets no entry;
- **answer** (`on_price`): a usage hint when no symbol is left, without any
  lookup; the error text when the lookup raised an HTTP error; an
  "unavailable" note when nothing was found; otherwise one line per symbol,
  in order, "no data" when the symbol has no record or an empty one.

The loops of the source are methods with loop invariants. Each method is
proved against specification functions (`Dedup`, `Concat`, `Lower`,
`Requested`, `KnownOnly`, `FirstHit`, `Found`, `Pick`, `Normalised`), and the
properties of those functions are lemmas. `Requested` is the list
comprehension of main.py:65: the tokens after the command word, each
lower-cased by `Lower`, or `DefaultCoins` when there are none.

Files and modules:

- `seqs.dfy`, module `Seqs`: sequences without repetitions. It defines
  first-occurrence de-duplication (`Dedup`), the first index of an element
  (`IndexOf`) and the order of first occurrences (`FirstSeenOrder`).
- `coins.dfy`, module `Coins`: the alias table `IdAliases`, `DefaultCoins`
  and `Aliases` (`ID_ALIASES.get(sym, [])`).
- `fetch.dfy`, module `Fetch`: `fetch_prices`. The provider's reply is a
  parameter of type `Outcome<map<string, Quote>>`: either `Ok` with the
  decoded body, or `HttpError` with the error's text.
- `command.dfy`, module `PriceCommand`: `on_price`. Its input is the
  whitespace-split message text. `Lower` and `Requested` give the lower-cased
  argument tokens or the defaults; `KnownOnly` and `Normalised` give the
  normalised symbols. It returns the answer as a `Reply` value and
  reports the lookup it made as a `Call` value: `NotCalled`, or
  `Called(ids)` with the identifiers requested.

## Model

| member | source | states |
|---|---|---|
| `Coins.AliasTableWellFormed` | main.py:20-25 | The table's keys are btc, eth and ton. Each has a non-empty alias list. No identifier occurs twice in the table. Every default coin is a key. |
| `Seqs.Dedup` | main.py:35 | `list(dict.fromkeys(xs))` has no repeated element. It holds exactly the elements of `xs` and is no longer than `xs`. |
| `Seqs.DedupOrder` | main.py:35 | The de-duplicated list keeps the order in which elements first occur in the input. |
| `Seqs.DedupUnique` | main.py:35 | Any list that is repetition-free, has the input's elements and follows first-occurrence order equals `Dedup` of the input. So the three properties above define the de-duplication completely. |
| `Fetch.ConcatElems` | main.py:32-34 | An identifier is in the joined alias list exactly when it is an alias of some requested symbol. Unknown symbols contribute nothing. |
| `Fetch.ProviderIds` | main.py:32-35 | The requested identifier list is the de-duplicated join of the alias lists. It has no repeats. Its elements are exactly the aliases of the requested symbols. It keeps their first-occurrence order in the join. |
| `Fetch.ProviderIdsIgnoreRepeats` | main.py:33-35 | Repeating a requested symbol leaves the identifier list unchanged: the list equals the one for the symbols with repeats removed. |
| `Fetch.ProviderIdsIgnoreUnknown` | main.py:34 | Inserting an unknown symbol anywhere in the request leaves the joined alias list unchanged. |
| `Fetch.FirstHit` | main.py:47-50 | The scan stops at the first alias the answer contains. Every alias before it is absent. It runs to the end of the list when none is present. |
| `Fetch.FoundIff` | main.py:47-50 | A symbol gets an entry exactly when at least one of its aliases is a key of the answer. |
| `Fetch.TonFallback` | main.py:47-50 | "ton" takes the "toncoin" record when the answer has one, and the "the-open-network" record only when "toncoin" is missing. It has no entry when both are missing. The alias order comes from table line main.py:23. |
| `Fetch.SelectPrices` | main.py:45-51 | The result's keys are exactly the requested symbols that have an alias in the answer. Each key's value is the answer's record for the first such alias. |
| `Fetch.FetchPrices` | main.py:31-51 | The lookup requests the de-duplicated identifier list. An HTTP error is passed on unchanged and no selection is made. On success the result is the selection of `SelectPrices`. |
| `PriceCommand.KnownOnly` | main.py:69 | The filter keeps exactly the tokens that are keys of the alias table. |
| `PriceCommand.KnownOnlyOrder` | main.py:68-70 | Dropping unknown tokens keeps the relative first-occurrence order of the known ones. |
| `PriceCommand.DefaultsNormalised` | main.py:65 | With no token after the command word, the symbols used are the default coins, all of them, in their order. |
| `PriceCommand.UnknownTokensLeaveNothing` | main.py:65-70 | When there are argument tokens and none of them lower-cases to a known symbol, nothing is left. Together with `OnPrice`, an unsupported request such as `/price xyz` gets the usage hint and makes no lookup. |
| `PriceCommand.Normalise` | main.py:64-70 | The normalised list holds only alias-table keys, exactly the known requested ones. It has no repeats and follows their first-seen order among the lower-cased tokens. With no argument tokens it equals the defaults. |
| `PriceCommand.BuildLines` | main.py:86-94 | There is one line per normalised symbol, in order. A line is "no data" exactly when the symbol has no entry or an empty record. Otherwise it is a price line carrying that record. |
| `PriceCommand.OnPrice` | main.py:63-96 | With no known symbol the answer is the usage hint and no lookup is made. Otherwise exactly one lookup is made, with the de-duplicated identifiers of the normalised symbols. An HTTP error gives the error answer with its text. A successful answer in which no symbol is found gives "unavailable". Otherwise the answer has one line per normalised symbol, "no data" exactly when the symbol was not found or its first-alias record is empty, and otherwise that record. |

## Left out

- The HTTP exchange (main.py:37-43) is not modelled: the URL, query parameters, headers, 10-second timeout, `raise_for_status` and JSON decoding. Network I/O becomes the `response` parameter. The request is recorded as the identifier list, not as the comma-joined `ids` string.
- A body that is not valid JSON raises a decoding error, which is not an `httpx.HTTPError` (main.py:43, 78). `on_price` does not catch it, so the handler fails with no reply. It is therefore not a case of `Outcome`, which has only the decoded-body and HTTP-error cases.
- A decoded body that is not a JSON object, or whose values are not objects, is not modelled. The answer is a `map<string, Quote>`.
- Token loading from the environment and the exit on a missing token (main.py:11-18) are process plumbing and are not modelled.
- The bot and dispatcher, the command decorators, `on_start`, sending with `m.answer`/`m.reply`, and the polling loop (main.py:17-18, 53-60, 98-105) are framework calls and are not modelled. Answers are returned values.
- Rendering is not modelled. `fmt_money` (main.py:28-29) and the `p.get("usd", 0.0)` defaults (main.py:92-93) are floating-point formatting. `s.upper()` and the HTML markup (main.py:90-94) and the `"\n".join` of the lines (main.py:96) are text layout. A `Line` carries the lower-case symbol and its record. The message texts become the constructors of `Reply` and `Line`.
- `str.lower` is modelled for ASCII only (`LowerChar`). `m.text or ""` and `.split()` (main.py:64) are not modelled: the handler's input is the token list.
- Async execution and concurrency are not modelled.
- Repeated calls with the same input give the same result because every method here is deterministic and its postconditions fix its outputs. No separate lemma states this.
- Two behaviours of the code that the model keeps: `fetch_prices` accepts unknown symbols and gives them no identifiers (main.py:34, 47), and a symbol whose record is an empty object gets the "no data" line (main.py:89), the same as one with no record.
