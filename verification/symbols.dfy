/** The two surface forms of a trading symbol: the canonical "BASE/QUOTE" form used
    for quotes and orders, and the compact "BASEQUOTE" form used in broker position
    records, together with the map from compact back to canonical form. */
module Symbols {

  /** Removes every '/' from a symbol, keeping all other characters in order. */
  function Normalize(s: string): string
  {
    if |s| == 0 then ""
    else (if s[0] == '/' then "" else [s[0]]) + Normalize(s[1..])
  }

  /** The compact form holds no '/', is never longer than the symbol, and a symbol
      without '/' is its own compact form. */
  lemma {:induction false} NormalizeRemovesSlashes(s: string)
    ensures '/' !in Normalize(s)
    ensures |Normalize(s)| <= |s|
    ensures '/' !in s ==> Normalize(s) == s
  {
    if |s| > 0 {
      NormalizeRemovesSlashes(s[1..]);
      assert s == [s[0]] + s[1..];
    }
  }

  /** Normalising distributes over concatenation. */
  lemma {:induction false} NormalizeConcat(a: string, b: string)
    ensures Normalize(a + b) == Normalize(a) + Normalize(b)
  {
    if |a| == 0 {
      assert a + b == b;
    } else {
      assert (a + b)[1..] == a[1..] + b;
      NormalizeConcat(a[1..], b);
    }
  }

  /** Normalising an already compact symbol changes nothing. */
  lemma NormalizeIdempotent(s: string)
    ensures Normalize(Normalize(s)) == Normalize(s)
  {
    NormalizeRemovesSlashes(s);
    NormalizeRemovesSlashes(Normalize(s));
  }

  /** A leading '/' is dropped. */
  lemma NormalizeSkipsSlash(q: string)
    ensures Normalize(['/'] + q) == Normalize(q)
  {
    var t := ['/'] + q;
    assert t[0] == '/' && t[1..] == q;
  }

  /** A canonical "BASE/QUOTE" symbol normalises to BASE followed by QUOTE. */
  lemma NormalizeCanonical(base: string, quote: string)
    requires '/' !in base && '/' !in quote
    ensures Normalize(base + "/" + quote) == base + quote
  {
    var tail := ['/'] + quote;
    assert base + "/" + quote == base + tail;
    NormalizeConcat(base, tail);
    NormalizeSkipsSlash(quote);
    NormalizeRemovesSlashes(base);
    NormalizeRemovesSlashes(quote);
  }

  /** No symbol after position i has the same compact form as symbols[i]. */
  predicate LastOfItsForm(symbols: seq<string>, i: int)
    requires 0 <= i < |symbols|
  {
    forall j :: i < j < |symbols| ==> Normalize(symbols[j]) != Normalize(symbols[i])
  }

  /** The compact forms of a symbol list. */
  function CompactForms(symbols: seq<string>): set<string>
  {
    set s | s in symbols :: Normalize(s)
  }

  /** The asset map, compact form to canonical form, built left to right so that a
      later symbol with the same compact form overwrites an earlier one, as a
      dictionary comprehension does. */
  function AssetMap(symbols: seq<string>): (m: map<string, string>)
    ensures m.Keys == CompactForms(symbols)
    ensures forall k :: k in m ==> m[k] in symbols && Normalize(m[k]) == k
    ensures |symbols| > 0 ==> m[Normalize(symbols[|symbols| - 1])] == symbols[|symbols| - 1]
  {
    if |symbols| == 0 then map[]
    else
      var init := symbols[..|symbols| - 1];
      var last := symbols[|symbols| - 1];
      assert symbols == init + [last];
      assert CompactForms(symbols) == CompactForms(init) + {Normalize(last)};
      AssetMap(init)[Normalize(last) := last]
  }

  /** The last symbol of each compact form wins: every symbol that no later symbol
      shares its compact form with is the value of that form. */
  lemma {:induction false} AssetMapLastWins(symbols: seq<string>)
    decreases |symbols|
    ensures forall i :: 0 <= i < |symbols| && LastOfItsForm(symbols, i) ==> AssetMap(symbols)[Normalize(symbols[i])] == symbols[i]
  {
    if |symbols| > 0 {
      var init := symbols[..|symbols| - 1];
      var last := symbols[|symbols| - 1];
      AssetMapLastWins(init);
      forall i | 0 <= i < |symbols| && LastOfItsForm(symbols, i)
        ensures AssetMap(symbols)[Normalize(symbols[i])] == symbols[i]
      {
        if i < |symbols| - 1 {
          assert init[i] == symbols[i];
          assert Normalize(last) != Normalize(symbols[i]);
          assert LastOfItsForm(init, i);
        }
      }
    }
  }

  /** No two distinct symbols of the list share a compact form. */
  predicate DistinctCompactForms(symbols: seq<string>)
  {
    forall i, j :: 0 <= i < |symbols| && 0 <= j < |symbols| && symbols[i] != symbols[j] ==>
      Normalize(symbols[i]) != Normalize(symbols[j])
  }

  /** Round trip: when compact forms are distinct, the asset map sends the compact
      form of every listed symbol back to that symbol, and its values are exactly the
      listed symbols, one entry each way. */
  lemma AssetMapRoundTrip(symbols: seq<string>)
    requires DistinctCompactForms(symbols)
    ensures forall s :: s in symbols ==> Normalize(s) in AssetMap(symbols) && AssetMap(symbols)[Normalize(s)] == s
    ensures AssetMap(symbols).Values == set s | s in symbols
  {
    var m := AssetMap(symbols);
    forall s | s in symbols
      ensures Normalize(s) in m && m[Normalize(s)] == s
    {
      var t := m[Normalize(s)];
      var i :| 0 <= i < |symbols| && symbols[i] == s;
      var j :| 0 <= j < |symbols| && symbols[j] == t;
    }
    forall s | s in symbols ensures s in m.Values {
      assert m[Normalize(s)] == s;
    }
  }

  /** The symbols the bot is configured with. */
  const Configured: seq<string> := ["BTC/USD", "ETH/USD", "XRP/USD", "SOL/USD"]

  lemma CompactBtc() ensures Normalize("BTC/USD") == "BTCUSD"
  {
    NormalizeCanonical("BTC", "USD");
    assert "BTC" + "/" + "USD" == "BTC/USD";
  }

  lemma CompactEth() ensures Normalize("ETH/USD") == "ETHUSD"
  {
    NormalizeCanonical("ETH", "USD");
    assert "ETH" + "/" + "USD" == "ETH/USD";
  }

  lemma CompactXrp() ensures Normalize("XRP/USD") == "XRPUSD"
  {
    NormalizeCanonical("XRP", "USD");
    assert "XRP" + "/" + "USD" == "XRP/USD";
  }

  lemma CompactSol() ensures Normalize("SOL/USD") == "SOLUSD"
  {
    NormalizeCanonical("SOL", "USD");
    assert "SOL" + "/" + "USD" == "SOL/USD";
  }

  /** The compact forms the broker reports for the configured symbols. */
  const ConfiguredCompact: seq<string> := ["BTCUSD", "ETHUSD", "XRPUSD", "SOLUSD"]

  /** The configured symbols normalise to the compact forms the broker reports. */
  lemma ConfiguredCompactForms()
    ensures forall i :: 0 <= i < |Configured| ==> Normalize(Configured[i]) == ConfiguredCompact[i]
  {
    CompactBtc();
    CompactEth();
    CompactXrp();
    CompactSol();
  }

  /** The configured symbols have distinct compact forms. */
  lemma ConfiguredDistinct()
    ensures DistinctCompactForms(Configured)
  {
    ConfiguredCompactForms();
    forall i, j | 0 <= i < |Configured| && 0 <= j < |Configured| && Configured[i] != Configured[j]
      ensures Normalize(Configured[i]) != Normalize(Configured[j])
    {
      CompactInitial(i);
      CompactInitial(j);
      assert i != j;
    }
  }

  /** The initials of the configured compact forms, which tell them apart. */
  const Initials: seq<char> := ['B', 'E', 'X', 'S']

  /** Each configured compact form starts with its own initial, and no two
      initials are alike. */
  lemma CompactInitial(i: int)
    requires 0 <= i < |ConfiguredCompact|
    ensures |ConfiguredCompact[i]| > 0 && ConfiguredCompact[i][0] == Initials[i]
    ensures forall j :: 0 <= j < |Initials| && j != i ==> Initials[j] != Initials[i]
  {
    if i == 0 {
      assert ConfiguredCompact[0] == "BTCUSD";
    } else if i == 1 {
      assert ConfiguredCompact[1] == "ETHUSD";
    } else if i == 2 {
      assert ConfiguredCompact[2] == "XRPUSD";
    } else {
      assert ConfiguredCompact[3] == "SOLUSD";
    }
  }

  /** The asset map resolves the compact form of every configured symbol, which is
      how broker position symbols find their canonical form. */
  lemma ConfiguredRoundTrip()
    ensures forall s :: s in Configured ==> Normalize(s) in AssetMap(Configured) && AssetMap(Configured)[Normalize(s)] == s
  {
    ConfiguredDistinct();
    AssetMapRoundTrip(Configured);
  }

  lemma CompactColliding() ensures Normalize("BT/CUSD") == "BTCUSD"
  {
    NormalizeCanonical("BT", "CUSD");
    assert "BT" + "/" + "CUSD" == "BT/CUSD";
  }

  /** Without distinct compact forms the round trip fails: the later symbol wins. */
  lemma CollidingSymbolsLoseRoundTrip()
    ensures AssetMap(["BT/CUSD", "BTC/USD"])[Normalize("BT/CUSD")] != "BT/CUSD"
  {
    CompactColliding();
    CompactBtc();
    var syms := ["BT/CUSD", "BTC/USD"];
    assert syms[1] == "BTC/USD";
  }
}
