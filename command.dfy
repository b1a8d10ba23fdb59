/** The `/price` command handler (`on_price`): normalise the requested
    symbols, give a usage hint when none is left, otherwise look the prices
    up once and answer with an error, an "unavailable" note, or one line per
    symbol.

    The handler's input is the whitespace-split text of the message; the
    answer is returned as a value instead of being sent. Message texts and
    number rendering are abstract: each kind of answer is a constructor. */
module PriceCommand {
  import opened Seqs
  import opened Coins
  import opened Fetch

  /** ASCII lower-casing of one character. */
  function LowerChar(c: char): char {
    if 'A' <= c <= 'Z' then (c as int - 'A' as int + 'a' as int) as char else c
  }

  /** ASCII lower-casing of a token (`str.lower`). */
  function Lower(s: string): string {
    seq(|s|, i requires 0 <= i < |s| => LowerChar(s[i]))
  }

  /** The symbols asked for: the lower-cased tokens after the command word, or
      the defaults when there are none. */
  function Requested(parts: seq<string>): seq<string> {
    if |parts| <= 1 then DefaultCoins
    else seq(|parts| - 1, i requires 0 <= i < |parts| - 1 => Lower(parts[i + 1]))
  }

  /** The tokens that are symbols of the alias table, in their order. */
  function KnownOnly(s: seq<string>): (r: seq<string>)
    ensures forall x :: x in r <==> x in s && x in IdAliases
  {
    if s == [] then []
    else
      var p, x := s[..|s| - 1], s[|s| - 1];
      assert s == p + [x];
      if x in IdAliases then KnownOnly(p) + [x] else KnownOnly(p)
  }

  /** The symbols the command works with: the known requested symbols,
      each once, in the order they were first asked for. */
  function Normalised(parts: seq<string>): seq<string> {
    Dedup(KnownOnly(Requested(parts)))
  }

  /** Dropping unknown tokens keeps the order of first occurrences of the
      known ones. */
  lemma {:induction false} KnownOnlyOrder(s: seq<string>, x: string, y: string)
    requires x in KnownOnly(s) && y in KnownOnly(s)
    requires IndexOf(KnownOnly(s), x) < IndexOf(KnownOnly(s), y)
    ensures IndexOf(s, x) < IndexOf(s, y)
  {
    var p, w := s[..|s| - 1], s[|s| - 1];
    assert s == p + [w];
    var kp := KnownOnly(p);
    if w !in IdAliases {
      KnownOnlyOrder(p, x, y);
      IndexOfSnoc(p, w, x);
      IndexOfSnoc(p, w, y);
    } else if y !in kp {
      // y is seen for the first time at the end of s
      IndexOfNew(p, y);
      IndexOfSnoc(p, w, x);
    } else if x in kp {
      IndexOfSnoc(kp, w, x);
      IndexOfSnoc(kp, w, y);
      KnownOnlyOrder(p, x, y);
      IndexOfSnoc(p, w, x);
      IndexOfSnoc(p, w, y);
    } else {
      // x would be first seen last among the known tokens, after y
      IndexOfNew(kp, x);
      IndexOfSnoc(kp, w, y);
      assert false;
    }
  }

  /** A sequence of known symbols without repetitions is its own
      normalisation. */
  lemma KnownDistinctIsNormal(s: seq<string>)
    requires forall i :: 0 <= i < |s| ==> s[i] in IdAliases
    requires NoDup(s)
    ensures Dedup(KnownOnly(s)) == s
  {
    KnownOnlyAllKnown(s);
    forall i | 0 <= i < |s| ensures IndexOf(s, s[i]) == i {
      IndexOfUnique(s, s[i], i);
    }
    DedupUnique(s, s);
  }

  /** Filtering keeps a sequence of known symbols as it is. */
  lemma {:induction false} KnownOnlyAllKnown(s: seq<string>)
    requires forall i :: 0 <= i < |s| ==> s[i] in IdAliases
    ensures KnownOnly(s) == s
  {
    if s != [] {
      var p := s[..|s| - 1];
      assert s == p + [s[|s| - 1]];
      KnownOnlyAllKnown(p);
    }
  }

  /** With no symbol after the command, the command works with the default
      symbols, all of them, in their order. */
  lemma DefaultsNormalised(parts: seq<string>)
    requires |parts| <= 1
    ensures Normalised(parts) == DefaultCoins
  {
    KnownDistinctIsNormal(DefaultCoins);
  }

  /** When no token after the command word is a known symbol once
      lower-cased, nothing is left to look up. */
  lemma UnknownTokensLeaveNothing(parts: seq<string>)
    requires |parts| > 1
    requires forall i :: 1 <= i < |parts| ==> Lower(parts[i]) !in IdAliases
    ensures Normalised(parts) == []
  {
  }

  /** The normalisation loop of `on_price`: keep each requested token that is
      a known symbol and not yet kept. */
  method Normalise(parts: seq<string>) returns (norm: seq<string>)
    ensures norm == Normalised(parts)
    ensures forall s :: s in norm <==> s in Requested(parts) && s in IdAliases
    ensures NoDup(norm)
    ensures FirstSeenOrder(norm, Requested(parts))
    ensures |parts| <= 1 ==> norm == DefaultCoins
  {
    var syms := Requested(parts);
    norm := [];
    for i := 0 to |syms|
      invariant norm == Dedup(KnownOnly(syms[..i]))
    {
      var s := syms[i];
      assert syms[..i + 1] == syms[..i] + [s];
      DedupSnoc(KnownOnly(syms[..i]), s);
      if s in IdAliases && s !in norm {
        norm := norm + [s];
      }
    }
    assert syms[..|syms|] == syms;
    var known := KnownOnly(syms);
    DedupElems(known);
    DedupOrder(known);
    forall i, j | 0 <= i < j < |norm|
      ensures IndexOf(syms, norm[i]) < IndexOf(syms, norm[j])
    {
      KnownOnlyOrder(syms, norm[i], norm[j]);
    }
    if |parts| <= 1 {
      DefaultsNormalised(parts);
    }
  }

  /** One line of the price answer: a "no data" marker, or the symbol's
      record (rendered as "$usd | ₽rub"). */
  datatype Line = NoData(symbol: string) | PriceLine(symbol: string, quote: Quote)

  /** The answers of the command. */
  datatype Reply =
    | Usage                       // no known symbol was asked for
    | FetchFailed(detail: string) // the lookup raised an HTTP error
    | Unavailable                 // the lookup found nothing at all
    | Prices(lines: seq<Line>)

  /** Whether the price lookup was made, and with which identifiers. */
  datatype Call = NotCalled | Called(ids: seq<string>)

  /** The line-building loop of `on_price`: one line per symbol, in order,
      "no data" when the result has no record or an empty one. */
  method BuildLines(norm: seq<string>, prices: map<string, Quote>) returns (lines: seq<Line>)
    ensures |lines| == |norm|
    ensures forall i :: 0 <= i < |norm| ==> lines[i].symbol == norm[i]
    ensures forall i :: 0 <= i < |norm| ==>
      (lines[i].NoData? <==> norm[i] !in prices || prices[norm[i]] == map[])
    ensures forall i :: 0 <= i < |norm| && lines[i].PriceLine? ==> lines[i].quote == prices[norm[i]]
  {
    lines := [];
    for i := 0 to |norm|
      invariant |lines| == i
      invariant forall k :: 0 <= k < i ==> lines[k].symbol == norm[k]
      invariant forall k :: 0 <= k < i ==>
        (lines[k].NoData? <==> norm[k] !in prices || prices[norm[k]] == map[])
      invariant forall k :: 0 <= k < i && lines[k].PriceLine? ==> lines[k].quote == prices[norm[k]]
    {
      var s := norm[i];
      if s !in prices || prices[s] == map[] {
        lines := lines + [NoData(s)];
        continue;
      }
      lines := lines + [PriceLine(s, prices[s])];
    }
  }

  /** `on_price` for the message tokens `parts`, the provider answering the
      lookup with `response`. */
  method OnPrice(parts: seq<string>, response: Outcome<map<string, Quote>>) returns (reply: Reply, call: Call)
    ensures var norm := Normalised(parts);
      norm == [] ==> reply == Usage && call == NotCalled
    ensures var norm := Normalised(parts);
      norm != [] ==> call == Called(Dedup(Concat(norm)))
    ensures var norm := Normalised(parts);
      norm != [] && response.HttpError? ==> reply == FetchFailed(response.detail)
    ensures var norm := Normalised(parts);
      norm != [] && response.Ok? && (forall s :: s in norm ==> !Found(s, response.value)) ==>
        reply == Unavailable
    ensures var norm := Normalised(parts);
      norm != [] && response.Ok? && (exists s :: s in norm && Found(s, response.value)) ==>
        && reply.Prices?
        && |reply.lines| == |norm|
        && forall i :: 0 <= i < |norm| ==>
             && reply.lines[i].symbol == norm[i]
             && (reply.lines[i].NoData? <==>
                   !Found(norm[i], response.value) || Pick(norm[i], response.value) == map[])
             && (reply.lines[i].PriceLine? ==> reply.lines[i].quote == Pick(norm[i], response.value))
  {
    var norm := Normalise(parts);
    if norm == [] {
      return Usage, NotCalled;
    }
    var ids, result := FetchPrices(norm, response);
    call := Called(ids);
    if result.HttpError? {
      return FetchFailed(result.detail), call;
    }
    var prices := result.value;
    ghost var data := response.value;
    if prices == map[] {
      assert forall s :: s in norm ==> !Found(s, data);
      return Unavailable, call;
    }
    ghost var some :| some in prices;
    assert some in norm && Found(some, data);
    var lines := BuildLines(norm, prices);
    reply := Prices(lines);
    forall i | 0 <= i < |norm|
      ensures lines[i].NoData? <==> !Found(norm[i], data) || Pick(norm[i], data) == map[]
      ensures lines[i].PriceLine? ==> lines[i].quote == Pick(norm[i], data)
    {
      assert norm[i] in norm;
    }
  }
}
