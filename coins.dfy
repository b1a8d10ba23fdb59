/** The fixed configuration of the bot: which ticker symbols it knows, and
    which identifiers of the quote provider stand for each of them. */
module Coins {

  /** For each supported symbol, the provider identifiers to try, in order of
      preference (`ID_ALIASES`). */
  const IdAliases: map<string, seq<string>> :=
    map[
      "btc" := ["bitcoin"],
      "eth" := ["ethereum"],
      "ton" := ["toncoin", "the-open-network"]
    ]

  /** The symbols quoted when the command names none (`DEFAULT_COINS`). */
  const DefaultCoins: seq<string> := ["btc", "eth", "ton"]

  /** The alias list of `sym`, or nothing for a symbol the table does not know
      (`ID_ALIASES.get(sym, [])`). */
  function Aliases(sym: string): seq<string> {
    if sym in IdAliases then IdAliases[sym] else []
  }

  /** The table is well formed: every symbol has at least one identifier, no
      identifier is listed twice or under two symbols, and the defaults are
      all known symbols. */
  lemma AliasTableWellFormed()
    ensures IdAliases.Keys == {"btc", "eth", "ton"}
    ensures forall s :: s in IdAliases ==> |IdAliases[s]| > 0
    ensures forall s :: s in IdAliases ==> Aliases(s) == IdAliases[s]
    ensures forall s :: s in DefaultCoins ==> s in IdAliases
    ensures forall s, t, i, j :: s in IdAliases && t in IdAliases && 0 <= i < |IdAliases[s]| && 0 <= j < |IdAliases[t]| && IdAliases[s][i] == IdAliases[t][j] ==> s == t && i == j
  {
  }
}
