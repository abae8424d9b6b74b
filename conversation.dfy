/**
 * `continueConversation`: the intent test, the choice between the volume
 * lookup and the streamed model reply, and the conversation history
 * (the AI state) that each path leaves behind.
 *
 * The model provider and the exchange are outside the model: each request
 * carries the outcome the provider's stream would have had and the outcome
 * the exchange lookup would have had, and only the one for the path taken
 * is consulted.
 */
module Conversation {
  import opened Wrappers
  import opened JsString
  import opened Symbols

  datatype Role = User | Assistant

  /** `ServerMessage`: one turn of the history. */
  datatype Turn = Turn(role: Role, content: string)

  /** `initialAIState` of the `AI` provider. */
  const InitialHistory: seq<Turn> := []

  /** The model provider's stream: its final text, or an exception at any point. */
  datatype StreamOutcome = Streamed(finalText: string) | StreamFailed

  /** The exchange lookup: a successful response, or a failed or non-2xx one. */
  datatype FetchOutcome = Fetched | FetchFailed

  /** The two paths of `continueConversation`. */
  datatype Route = FetchVolume(symbol: string) | StreamReply

  /** The intent test: the lower-cased input mentions "volume" or "binance". */
  predicate IsVolumeQuery(input: string)
  {
    Includes(Lower(input), "volume") || Includes(Lower(input), "binance")
  }

  /** `if (symbol)`: JavaScript truthiness of a `string | null`. */
  predicate Truthy(s: Option<string>)
  {
    s.Some? && s.value != ""
  }

  function RouteOf(input: string): Route
  {
    if IsVolumeQuery(input) && Truthy(SymbolOf(input)) then FetchVolume(SymbolOf(input).value)
    else StreamReply
  }

  /** The assistant turn `fetchBinanceVolume` records. */
  function FetchSummary(symbol: string, fetch: FetchOutcome): string
  {
    match fetch
    case Fetched => "Fetched volume for " + symbol
    case FetchFailed => "Failed to fetch volume for " + symbol
  }

  /** `fetchBinanceVolume`'s update of the history; it catches its own errors. */
  function FetchVolumeHistory(history: seq<Turn>, symbol: string, input: string, fetch: FetchOutcome): seq<Turn>
  {
    history + [Turn(User, input), Turn(Assistant, FetchSummary(symbol, fetch))]
  }

  /** The history after `continueConversation(input)` has finished in the background. */
  function ContinueConversation(history: seq<Turn>, input: string, stream: StreamOutcome, fetch: FetchOutcome): seq<Turn>
  {
    match RouteOf(input)
    case FetchVolume(symbol) => FetchVolumeHistory(history, symbol, input, fetch)
    case StreamReply =>
      match stream
      case Streamed(finalText) => history + [Turn(User, input), Turn(Assistant, finalText)]
      case StreamFailed => history
  }

  /** Whether a request leaves its exchange in the history: every volume lookup does,
      a streamed reply only when the stream completes. */
  predicate Committed(input: string, stream: StreamOutcome)
  {
    RouteOf(input).FetchVolume? || stream.Streamed?
  }

  /** The label under the base-asset volume: `symbol.replace('USDT', '')`. */
  function BaseLabel(symbol: string): string
  {
    ReplaceFirst(symbol, "USDT", "")
  }

  /** An input takes the volume path exactly when it mentions "volume" or "binance"
      and a symbol is found; the symbol fetched is the one found. */
  lemma VolumeRouteIff(input: string)
    ensures RouteOf(input).FetchVolume? <==> IsVolumeQuery(input) && SymbolOf(input).Some?
    ensures RouteOf(input).FetchVolume? ==> RouteOf(input).symbol == SymbolOf(input).value
    ensures RouteOf(input).StreamReply? <==> !IsVolumeQuery(input) || SymbolOf(input).None?
  {
    if SymbolOf(input).Some? {
      SymbolWellFormed(input);
    }
  }

  /** The path taken, and the symbol fetched, do not depend on the input's letter case. */
  lemma RouteCaseInsensitive(s: string, t: string)
    requires Lower(s) == Lower(t)
    ensures IsVolumeQuery(s) == IsVolumeQuery(t)
    ensures RouteOf(s) == RouteOf(t)
  {
    SymbolCaseInsensitive(s, t);
  }

  /** A request leaves either nothing or one whole exchange behind: the input as a
      user turn, then an assistant turn; what was there before is kept. */
  lemma ContinueAppendsExchange(history: seq<Turn>, input: string, stream: StreamOutcome, fetch: FetchOutcome)
    ensures var h := ContinueConversation(history, input, stream, fetch);
      if Committed(input, stream) then
        |h| == |history| + 2 && h[..|history|] == history &&
        h[|history|] == Turn(User, input) && h[|history| + 1].role == Assistant
      else
        h == history
  {
    var h := ContinueConversation(history, input, stream, fetch);
    if Committed(input, stream) {
      assert h[..|history|] == history;
    }
  }

  /** A completed stream appends the input and the model's final text. */
  lemma StreamedAppends(history: seq<Turn>, input: string, finalText: string, fetch: FetchOutcome)
    requires RouteOf(input).StreamReply?
    ensures ContinueConversation(history, input, Streamed(finalText), fetch)
              == history + [Turn(User, input), Turn(Assistant, finalText)]
  {
  }

  /** A failed stream leaves the history as it was. */
  lemma StreamFailedKeepsHistory(history: seq<Turn>, input: string, fetch: FetchOutcome)
    requires RouteOf(input).StreamReply?
    ensures ContinueConversation(history, input, StreamFailed, fetch) == history
  {
  }

  /** A volume lookup always appends the input and a summary naming the symbol,
      whether the exchange answers or not, and whatever the stream would have done. */
  lemma FetchAppends(history: seq<Turn>, input: string, stream: StreamOutcome, fetch: FetchOutcome)
    requires IsVolumeQuery(input) && SymbolOf(input).Some?
    ensures ContinueConversation(history, input, stream, fetch)
              == history + [Turn(User, input),
                            Turn(Assistant, (if fetch.Fetched? then "Fetched volume for "
                                             else "Failed to fetch volume for ") + SymbolOf(input).value)]
  {
    VolumeRouteIff(input);
  }

  /** User and assistant turns alternate, starting with a user turn, and come in pairs. */
  ghost predicate Alternating(h: seq<Turn>)
  {
    |h| % 2 == 0 && forall i :: 0 <= i < |h| ==> h[i].role == (if i % 2 == 0 then User else Assistant)
  }

  lemma ContinueKeepsAlternating(history: seq<Turn>, input: string, stream: StreamOutcome, fetch: FetchOutcome)
    requires Alternating(history)
    ensures Alternating(ContinueConversation(history, input, stream, fetch))
  {
    match RouteOf(input)
    case FetchVolume(symbol) =>
      ExchangeKeepsAlternating(history, input, FetchSummary(symbol, fetch));
    case StreamReply =>
      if stream.Streamed? {
        ExchangeKeepsAlternating(history, input, stream.finalText);
      }
  }

  lemma ExchangeKeepsAlternating(history: seq<Turn>, input: string, reply: string)
    requires Alternating(history)
    ensures Alternating(history + [Turn(User, input), Turn(Assistant, reply)])
  {
    var h := history + [Turn(User, input), Turn(Assistant, reply)];
    forall i | 0 <= i < |h|
      ensures h[i].role == (if i % 2 == 0 then User else Assistant)
    {
      if i < |history| {
        assert h[i] == history[i];
      }
    }
  }

  /** One submission of the page: the input and the outcomes of the two external calls. */
  datatype Request = Request(input: string, stream: StreamOutcome, fetch: FetchOutcome)

  /** The history after the requests have been served one at a time, in order. */
  function Session(history: seq<Turn>, requests: seq<Request>): seq<Turn>
    decreases |requests|
  {
    if requests == [] then history
    else
      var r := requests[0];
      Session(ContinueConversation(history, r.input, r.stream, r.fetch), requests[1..])
  }

  /** How many of the requests leave their exchange in the history. */
  function CommittedCount(requests: seq<Request>): nat
    decreases |requests|
  {
    if requests == [] then 0
    else (if Committed(requests[0].input, requests[0].stream) then 1 else 0) + CommittedCount(requests[1..])
  }

  lemma {:induction false} SessionLength(history: seq<Turn>, requests: seq<Request>)
    ensures |Session(history, requests)| == |history| + 2 * CommittedCount(requests)
    decreases |requests|
  {
    if requests != [] {
      var r := requests[0];
      ContinueAppendsExchange(history, r.input, r.stream, r.fetch);
      SessionLength(ContinueConversation(history, r.input, r.stream, r.fetch), requests[1..]);
    }
  }

  lemma {:induction false} SessionAlternates(history: seq<Turn>, requests: seq<Request>)
    requires Alternating(history)
    ensures Alternating(Session(history, requests))
    decreases |requests|
  {
    if requests != [] {
      var r := requests[0];
      ContinueKeepsAlternating(history, r.input, r.stream, r.fetch);
      SessionAlternates(ContinueConversation(history, r.input, r.stream, r.fetch), requests[1..]);
    }
  }

  lemma {:induction false} AllCommittedCount(requests: seq<Request>)
    requires forall i :: 0 <= i < |requests| ==> Committed(requests[i].input, requests[i].stream)
    ensures CommittedCount(requests) == |requests|
    decreases |requests|
  {
    if requests != [] {
      AllCommittedCount(requests[1..]);
    }
  }

  /** From the empty initial state, N successful exchanges give 2N alternating turns. */
  lemma SuccessfulSession(requests: seq<Request>)
    requires forall i :: 0 <= i < |requests| ==> Committed(requests[i].input, requests[i].stream)
    ensures |Session(InitialHistory, requests)| == 2 * |requests|
    ensures Alternating(Session(InitialHistory, requests))
  {
    SessionLength(InitialHistory, requests);
    AllCommittedCount(requests);
    SessionAlternates(InitialHistory, requests);
  }

  /** `replace` finds the first `USDT` and removes it alone; without one the symbol is kept. */
  lemma BaseLabelRemovesFirst(symbol: string)
    ensures IndexOf(symbol, "USDT").None? ==> BaseLabel(symbol) == symbol
    ensures IndexOf(symbol, "USDT").Some? ==>
              var i := IndexOf(symbol, "USDT").value;
              OccursAt(symbol, "USDT", i) &&
              (forall j: nat :: j < i ==> !OccursAt(symbol, "USDT", j)) &&
              BaseLabel(symbol) == symbol[..i] + symbol[i + 4..]
  {
    IndexOfFromFirst(symbol, "USDT", 0);
  }

  /** A base asset without `USDT` in it gets its label back from its ticker. */
  lemma BaseLabelOfTicker(base: string)
    requires !Includes(base, "USDT")
    ensures BaseLabel(base + "USDT") == base
  {
    var t := base + "USDT";
    IncludesIff(base, "USDT");
    forall j: nat | j < |base|
      ensures !OccursAt(t, "USDT", j)
    {
      if j + 4 <= |base| {
        assert t[j..j + 4] == base[j..j + 4];
        assert !OccursAt(base, "USDT", j);
      } else {
        var d := |base| - j;
        assert t[j + d] == 'U' != "USDT"[d];
        assert t[j..j + 4][d] == t[j + d];
      }
    }
    assert t[|base|..|base| + 4] == "USDT";
    assert OccursAt(t, "USDT", |base|);
    IndexOfFromFirst(t, "USDT", 0);
    var i := IndexOf(t, "USDT").value;
    assert i == |base|;
    assert t[..i] == base;
    assert t[i + 4..] == [];
  }

  /** For every ticker of the table the label is the ticker without `USDT`: `BTCUSDT` gives `BTC`. */
  lemma TableBaseLabels(i: nat)
    requires i < |CryptoMap|
    ensures BaseLabel(CryptoMap[i].1) == CryptoMap[i].1[..|CryptoMap[i].1| - 4]
  {
    var t := CryptoMap[i].1;
    TableTickers();
    var base := t[..|t| - 4];
    assert 'U' !in base;
    MissingChar(base, "USDT", 'U');
    assert t == base + "USDT";
    BaseLabelOfTicker(base);
  }

  /** "Ethereum volume" asks for the volume of ETHUSDT. */
  lemma VolumeRouteExample(input: string)
    requires input == "Ethereum volume"
    ensures RouteOf(input) == FetchVolume("ETHUSDT")
  {
    LowerLiteral(input, "Ethereum volume", "ethereum volume");
    MentionsVolume(Lower(input));
    LongerAliasExample(input);
  }

  /** A failed lookup is still recorded, whatever the stream would have done. */
  lemma FailedLookupExample(input: string, stream: StreamOutcome)
    requires input == "Ethereum volume"
    ensures ContinueConversation(InitialHistory, input, stream, FetchFailed)
              == [Turn(User, input), Turn(Assistant, "Failed to fetch volume for ETHUSDT")]
  {
    VolumeRouteExample(input);
    FailedSummaryText(FetchSummary("ETHUSDT", FetchFailed));
  }

  lemma FailedSummaryText(summary: string)
    requires summary == FetchSummary("ETHUSDT", FetchFailed)
    ensures summary == "Failed to fetch volume for ETHUSDT"
  {
  }

  lemma MentionsVolume(l: string)
    requires l == "ethereum volume"
    ensures Includes(l, "volume")
  {
    assert OccursAt(l, "volume", 9);
    IncludesIff(l, "volume");
  }

  /** Aliases are matched as substrings, not words: "something" holds "eth". */
  lemma SubstringAliasExample(input: string)
    requires input == "The volume of something"
    ensures RouteOf(input) == FetchVolume("ETHUSDT")
  {
    LowerLiteral(input, "The volume of something", "the volume of something");
    SomethingLetters(Lower(input));
    EthSearch(Lower(input));
    AliasTicker(CryptoMap, input, 3);
    TableTickers();
  }

  lemma SomethingLetters(l: string)
    requires l == "the volume of something"
    ensures 'b' !in l && 'r' !in l
    ensures Includes(l, "eth") && Includes(l, "volume")
  {
    assert OccursAt(l, "eth", 17);
    IncludesIff(l, "eth");
    assert OccursAt(l, "volume", 4);
    IncludesIff(l, "volume");
  }
}
