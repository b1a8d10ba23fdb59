/** The price lookup (`fetch_prices`): build the list of provider identifiers
    for the requested symbols, ask the provider once, and give each symbol the
    record of the first of its identifiers that the answer contains.

    The HTTP exchange itself is not modelled: its outcome is a parameter,
    either the decoded answer (a map from provider identifier to a
    per-currency record) or the `httpx.HTTPError` it raised. */
module Fetch {
  import opened Seqs
  import opened Coins

  /** The per-currency record the provider sends for one identifier,
      e.g. "usd" to 65000.0 and "rub" to 5900000.0. */
  type Quote = map<string, real>

  /** The outcome of an HTTP exchange: a value, or the error it raised
      together with that error's text. */
  datatype Outcome<T> = Ok(value: T) | HttpError(detail: string)

  /** The alias lists of `symbols` joined in order, unknown symbols adding
      nothing. */
  function Concat(symbols: seq<string>): seq<string> {
    if symbols == [] then []
    else Concat(symbols[..|symbols| - 1]) + Aliases(symbols[|symbols| - 1])
  }

  /** An identifier is in the joined list exactly when it is an alias of one
      of the requested symbols. */
  lemma {:induction false} ConcatElems(symbols: seq<string>)
    ensures forall id :: id in Concat(symbols) <==> exists s :: s in symbols && id in Aliases(s)
  {
    if symbols != [] {
      var p, s := symbols[..|symbols| - 1], symbols[|symbols| - 1];
      assert symbols == p + [s];
      ConcatElems(p);
    }
  }

  /** `Concat` distributes over joining the requested symbols. */
  lemma {:induction false} ConcatAppend(a: seq<string>, b: seq<string>)
    ensures Concat(a + b) == Concat(a) + Concat(b)
  {
    if b == [] {
      assert a + b == a;
    } else {
      var b', s := b[..|b| - 1], b[|b| - 1];
      var ab := a + b;
      assert ab[..|ab| - 1] == a + b' && ab[|ab| - 1] == s;
      calc {
        Concat(ab);
        Concat(a + b') + Aliases(s);
        { ConcatAppend(a, b'); }
        (Concat(a) + Concat(b')) + Aliases(s);
        Concat(a) + (Concat(b') + Aliases(s));
        Concat(a) + Concat(b);
      }
    }
  }

  /** The identifier list of `fetch_prices`: the alias lists of the requested
      symbols joined, then de-duplicated keeping first occurrences. */
  method ProviderIds(symbols: seq<string>) returns (ids: seq<string>)
    ensures ids == Dedup(Concat(symbols))
    ensures NoDup(ids)
    ensures forall id :: id in ids <==> exists s :: s in symbols && id in Aliases(s)
    ensures FirstSeenOrder(ids, Concat(symbols))
  {
    ids := [];
    for i := 0 to |symbols|
      invariant ids == Concat(symbols[..i])
    {
      assert symbols[..i + 1][..i] == symbols[..i];
      ids := ids + Aliases(symbols[i]);
    }
    assert symbols[..|symbols|] == symbols;
    ids := Dedup(ids);
    DedupElems(Concat(symbols));
    ConcatElems(symbols);
    DedupOrder(Concat(symbols));
  }

  /** Asking for a symbol again does not change the identifier list: it is
      the same as for the requested symbols without repetitions. */
  lemma {:induction false} ProviderIdsIgnoreRepeats(symbols: seq<string>)
    ensures Dedup(Concat(Dedup(symbols))) == Dedup(Concat(symbols))
  {
    if symbols != [] {
      var p, s := symbols[..|symbols| - 1], symbols[|symbols| - 1];
      assert symbols == p + [s];
      ProviderIdsIgnoreRepeats(p);
      DedupSnoc(p, s);
      ConcatAppend(p, [s]);
      assert Concat([s]) == Aliases(s) by {
        assert [s][..0] == [];
      }
      if s in Dedup(p) {
        // every identifier of s was contributed already
        DedupElems(p);
        ConcatElems(p);
        assert forall id :: id in Aliases(s) ==> id in Concat(p);
        DedupAbsorb(Concat(p), Aliases(s));
      } else {
        ConcatAppend(Dedup(p), [s]);
        DedupCongruence(Concat(Dedup(p)), Concat(p), Aliases(s));
      }
    }
  }

  /** A requested symbol the table does not know adds no identifier. */
  lemma ProviderIdsIgnoreUnknown(a: seq<string>, sym: string, b: seq<string>)
    requires sym !in IdAliases
    ensures Concat(a + [sym] + b) == Concat(a + b)
  {
    ConcatAppend(a + [sym], b);
    ConcatAppend(a, [sym]);
    ConcatAppend(a, b);
    assert [sym][..0] == [];
  }

  /** The position of the first alias that the answer contains, or the
      length of the list when it contains none. */
  function FirstHit(aliases: seq<string>, data: map<string, Quote>): (k: nat)
    ensures k <= |aliases|
    ensures forall j :: 0 <= j < k ==> aliases[j] !in data
    ensures k < |aliases| ==> aliases[k] in data
  {
    if aliases == [] then 0
    else if aliases[0] in data then 0
    else 1 + FirstHit(aliases[1..], data)
  }

  /** A position with no hit before it and a hit on it (or the end of the
      list) is where `FirstHit` stops. */
  lemma FirstHitAt(aliases: seq<string>, data: map<string, Quote>, k: nat)
    requires k <= |aliases|
    requires forall j :: 0 <= j < k ==> aliases[j] !in data
    requires k < |aliases| ==> aliases[k] in data
    ensures FirstHit(aliases, data) == k
  {
  }

  /** The answer contains one of the identifiers of `sym`. */
  predicate Found(sym: string, data: map<string, Quote>) {
    FirstHit(Aliases(sym), data) < |Aliases(sym)|
  }

  /** The record of the first identifier of `sym` that the answer contains. */
  function Pick(sym: string, data: map<string, Quote>): Quote
    requires Found(sym, data)
  {
    data[Aliases(sym)[FirstHit(Aliases(sym), data)]]
  }

  /** A symbol is found exactly when one of its identifiers is in the answer. */
  lemma FoundIff(sym: string, data: map<string, Quote>)
    ensures Found(sym, data) <==> exists a :: a in Aliases(sym) && a in data
  {
  }

  /** "ton" takes the record of "toncoin" when there is one, and that of
      "the-open-network" only when "toncoin" is missing. */
  lemma TonFallback(data: map<string, Quote>)
    ensures "toncoin" in data ==> Found("ton", data) && Pick("ton", data) == data["toncoin"]
    ensures "toncoin" !in data && "the-open-network" in data ==>
      Found("ton", data) && Pick("ton", data) == data["the-open-network"]
    ensures !Found("ton", data) <==> "toncoin" !in data && "the-open-network" !in data
  {
  }

  /** The selection loop of `fetch_prices`: for each requested symbol, scan
      its aliases in order and keep the record of the first one the answer
      contains; a symbol none of whose aliases is there gets no entry. */
  method SelectPrices(symbols: seq<string>, data: map<string, Quote>) returns (out: map<string, Quote>)
    ensures forall s :: s in out <==> s in symbols && Found(s, data)
    ensures forall s :: s in out ==> out[s] == Pick(s, data)
  {
    out := map[];
    for i := 0 to |symbols|
      invariant forall s :: s in out <==> s in symbols[..i] && Found(s, data)
      invariant forall s :: s in out ==> out[s] == Pick(s, data)
    {
      assert symbols[..i + 1] == symbols[..i] + [symbols[i]];
      var sym := symbols[i];
      var aliases := Aliases(sym);
      var j := 0;
      while j < |aliases|
        invariant j <= |aliases|
        invariant forall k :: 0 <= k < j ==> aliases[k] !in data
      {
        if aliases[j] in data {
          FirstHitAt(aliases, data, j);
          out := out[sym := data[aliases[j]]];
          break;
        }
        j := j + 1;
      }
      if j == |aliases| {
        FirstHitAt(aliases, data, j);
      }
    }
    assert symbols[..|symbols|] == symbols;
  }

  /** `fetch_prices`: the identifier list it requests and what it returns for
      the provider's `response`. A failed exchange is passed on as it is and
      no selection is made; otherwise the result maps exactly the requested
      symbols that were found to their first-alias records. */
  method FetchPrices(symbols: seq<string>, response: Outcome<map<string, Quote>>)
    returns (ids: seq<string>, result: Outcome<map<string, Quote>>)
    ensures ids == Dedup(Concat(symbols))
    ensures response.HttpError? ==> result == HttpError(response.detail)
    ensures response.Ok? ==> result.Ok?
    ensures response.Ok? ==> forall s :: s in result.value <==> s in symbols && Found(s, response.value)
    ensures response.Ok? ==> forall s :: s in result.value ==> result.value[s] == Pick(s, response.value)
  {
    ids := ProviderIds(symbols);
    match response
    case HttpError(detail) =>
      result := HttpError(detail);
    case Ok(data) =>
      var out := SelectPrices(symbols, data);
      result := Ok(out);
  }
}
