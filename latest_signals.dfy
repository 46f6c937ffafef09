/**
 * The reduction inside the `/signals` route: every stored signal record is written into a
 * dictionary under its symbol, so the last record for a symbol wins; records without a
 * symbol, or with an empty one, are skipped; the dictionary's values are returned as a list,
 * in the dictionary's order, which is the order in which each symbol was first inserted.
 */
module LatestSignals {
  import opened Wrappers

  /** A stored signal: its "symbol" entry (None when the key is missing or null) and the rest
      of the JSON object, which the reduction carries along untouched. */
  datatype SignalRecord = SignalRecord(symbol: Option<string>, fields: map<string, string>)

  /** `if symbol:` -- present and non-empty. */
  predicate HasSymbol(r: SignalRecord)
  {
    r.symbol.Some? && r.symbol.value != ""
  }

  /** An insertion-ordered dictionary from symbol to record: its keys in insertion order and
      its entries. */
  datatype Latest = Latest(order: seq<string>, bySymbol: map<string, SignalRecord>)

  predicate Valid(l: Latest)
  {
    && (forall a, b :: 0 <= a < b < |l.order| ==> l.order[a] != l.order[b])
    && (forall k :: 0 <= k < |l.order| ==> l.order[k] in l.bySymbol)
    && (forall s :: s in l.bySymbol ==> s in l.order)
  }

  /** `latest_signals[symbol] = signal`: a new key goes last, an existing key keeps its place
      and only its value is replaced. */
  function Put(l: Latest, s: string, r: SignalRecord): Latest
  {
    if s in l.bySymbol then Latest(l.order, l.bySymbol[s := r])
    else Latest(l.order + [s], l.bySymbol[s := r])
  }

  /** One iteration of the loop. */
  function Absorb(l: Latest, r: SignalRecord): Latest
  {
    if HasSymbol(r) then Put(l, r.symbol.value, r) else l
  }

  /** The dictionary after the loop has seen every record of rs. */
  function Fold(rs: seq<SignalRecord>): (l: Latest)
    ensures Valid(l)
    decreases |rs|
  {
    if rs == [] then Latest([], map[])
    else Absorb(Fold(rs[..|rs| - 1]), rs[|rs| - 1])
  }

  /** `list(latest_signals.values())` after the loop. */
  function LatestSignals(rs: seq<SignalRecord>): seq<SignalRecord>
  {
    var l := Fold(rs);
    seq(|l.order|, k requires 0 <= k < |l.order| => l.bySymbol[l.order[k]])
  }

  /** The loop of the route, updating the dictionary in place record by record. */
  method GetLatestSignals(allSignals: seq<SignalRecord>) returns (finalList: seq<SignalRecord>)
    ensures finalList == LatestSignals(allSignals)
  {
    var order: seq<string> := [];
    var latestSignals: map<string, SignalRecord> := map[];
    for i := 0 to |allSignals|
      invariant Latest(order, latestSignals) == Fold(allSignals[..i])
    {
      var signal := allSignals[i];
      var symbol := signal.symbol;
      if symbol.Some? && symbol.value != "" {
        if symbol.value !in latestSignals {
          order := order + [symbol.value];
        }
        latestSignals := latestSignals[symbol.value := signal];
      }
      assert allSignals[..i + 1][..i] == allSignals[..i];
    }
    assert allSignals[..|allSignals|] == allSignals;
    finalList := seq(|order|, k requires 0 <= k < |order| => latestSignals[order[k]]);
  }

  // ---------------------------------------------------------------- reference definitions

  /** The distinct non-empty symbols that occur in rs. */
  function TruthySymbols(rs: seq<SignalRecord>): set<string>
  {
    set i | 0 <= i < |rs| && HasSymbol(rs[i]) :: rs[i].symbol.value
  }

  predicate Occurs(rs: seq<SignalRecord>, s: string)
  {
    exists i :: 0 <= i < |rs| && rs[i].symbol == Some(s)
  }

  /** The position of the last record carrying symbol s. */
  function LastIndexWith(rs: seq<SignalRecord>, s: string): (i: nat)
    requires Occurs(rs, s)
    ensures i < |rs| && rs[i].symbol == Some(s)
    ensures forall j :: i < j < |rs| ==> rs[j].symbol != Some(s)
    decreases |rs|
  {
    var n := |rs| - 1;
    if rs[n].symbol == Some(s) then n
    else
      assert Occurs(rs[..n], s) by {
        var i :| 0 <= i < |rs| && rs[i].symbol == Some(s);
        assert i < n && rs[..n][i] == rs[i];
      }
      LastIndexWith(rs[..n], s)
  }

  /** The position of the first record carrying symbol s. */
  function FirstIndexWith(rs: seq<SignalRecord>, s: string): (i: nat)
    requires Occurs(rs, s)
    ensures i < |rs| && rs[i].symbol == Some(s)
    ensures forall j :: 0 <= j < i ==> rs[j].symbol != Some(s)
    decreases |rs|
  {
    var n := |rs| - 1;
    if Occurs(rs[..n], s) then FirstIndexWith(rs[..n], s)
    else
      n
  }

  /** The records of rs that carry a non-empty symbol, in order. */
  function Symboled(rs: seq<SignalRecord>): seq<SignalRecord>
    decreases |rs|
  {
    if rs == [] then []
    else Symboled(rs[..|rs| - 1]) + (if HasSymbol(rs[|rs| - 1]) then [rs[|rs| - 1]] else [])
  }

  // ---------------------------------------------------------------- properties

  lemma TruthySymbolsSnoc(rs: seq<SignalRecord>)
    requires rs != []
    ensures TruthySymbols(rs) == TruthySymbols(rs[..|rs| - 1])
      + (if HasSymbol(rs[|rs| - 1]) then {rs[|rs| - 1].symbol.value} else {})
  {
    var n := |rs| - 1;
    var p := rs[..n];
    forall t | t in TruthySymbols(rs)
      ensures t in TruthySymbols(p) || (HasSymbol(rs[n]) && t == rs[n].symbol.value)
    {
      var i :| 0 <= i < |rs| && HasSymbol(rs[i]) && rs[i].symbol.value == t;
      if i < n {
        assert p[i] == rs[i];
      }
    }
    forall t | t in TruthySymbols(p)
      ensures t in TruthySymbols(rs)
    {
      var i :| 0 <= i < |p| && HasSymbol(p[i]) && p[i].symbol.value == t;
      assert rs[i] == p[i];
    }
  }

  lemma FirstIndexPrefix(rs: seq<SignalRecord>, t: string)
    requires rs != [] && Occurs(rs[..|rs| - 1], t)
    ensures Occurs(rs, t) && FirstIndexWith(rs, t) == FirstIndexWith(rs[..|rs| - 1], t)
  {
    var i := FirstIndexWith(rs[..|rs| - 1], t);
    assert rs[i] == rs[..|rs| - 1][i];
  }

  /** The dictionary's keys are exactly the non-empty symbols of the input. */
  lemma {:induction false} FoldKeys(rs: seq<SignalRecord>)
    ensures Fold(rs).bySymbol.Keys == TruthySymbols(rs)
    decreases |rs|
  {
    if rs != [] {
      FoldKeys(rs[..|rs| - 1]);
      TruthySymbolsSnoc(rs);
    }
  }

  /** Each key maps to the last record carrying it. */
  lemma {:induction false} FoldLast(rs: seq<SignalRecord>)
    ensures forall s :: s in Fold(rs).bySymbol ==>
      Occurs(rs, s) && Fold(rs).bySymbol[s] == rs[LastIndexWith(rs, s)]
    decreases |rs|
  {
    if rs != [] {
      var n := |rs| - 1;
      var p, x := rs[..n], rs[n];
      FoldLast(p);
      FoldKeys(p);
      var l := Fold(rs);
      forall t | t in l.bySymbol
        ensures Occurs(rs, t) && l.bySymbol[t] == rs[LastIndexWith(rs, t)]
      {
        if HasSymbol(x) && t == x.symbol.value {
          assert LastIndexWith(rs, t) == n;
        } else {
          var i := LastIndexWith(p, t);
          assert rs[i] == p[i];
          assert t != "";
          assert rs[n].symbol != Some(t);
        }
      }
    }
  }

  /** The keys are ordered by the first appearance of their symbol. */
  lemma {:induction false} FoldOrder(rs: seq<SignalRecord>)
    ensures forall k :: 0 <= k < |Fold(rs).order| ==> Occurs(rs, Fold(rs).order[k])
    ensures forall a, b :: 0 <= a < b < |Fold(rs).order| ==>
      FirstIndexWith(rs, Fold(rs).order[a]) < FirstIndexWith(rs, Fold(rs).order[b])
    decreases |rs|
  {
    if rs != [] {
      var n := |rs| - 1;
      var p, x := rs[..n], rs[n];
      FoldOrder(p);
      FoldKeys(p);
      var l0, l := Fold(p), Fold(rs);
      forall k | 0 <= k < |l0.order|
        ensures Occurs(rs, l0.order[k]) && FirstIndexWith(rs, l0.order[k]) < n
      {
        FirstIndexPrefix(rs, l0.order[k]);
      }
      if HasSymbol(x) && x.symbol.value !in l0.bySymbol {
        var t := x.symbol.value;
        assert !Occurs(p, t) by {
          if Occurs(p, t) {
            var i :| 0 <= i < |p| && p[i].symbol == Some(t);
            assert HasSymbol(p[i]);
          }
        }
        assert FirstIndexWith(rs, t) == n;
        assert l.order == l0.order + [t];
      }
    }
  }

  /** A repeated symbol replaces the record but not the key's place in the order. */
  lemma LatestIsLastWrite(rs: seq<SignalRecord>)
    ensures var out := LatestSignals(rs);
      forall k :: 0 <= k < |out| ==>
        && HasSymbol(out[k])
        && Occurs(rs, out[k].symbol.value)
        && out[k] == rs[LastIndexWith(rs, out[k].symbol.value)]
        && out[k] in rs
  {
    FoldKeys(rs);
    FoldLast(rs);
    FoldOrder(rs);
    var l := Fold(rs);
    forall k | 0 <= k < |l.order|
      ensures l.bySymbol[l.order[k]].symbol == Some(l.order[k]) && l.order[k] != ""
    {
    }
  }

  /** The k-th output record carries the k-th key of the dictionary. */
  lemma LatestSymbols(rs: seq<SignalRecord>)
    ensures |LatestSignals(rs)| == |Fold(rs).order|
    ensures forall k :: 0 <= k < |Fold(rs).order| ==>
      LatestSignals(rs)[k].symbol == Some(Fold(rs).order[k]) && Fold(rs).order[k] != ""
  {
    FoldKeys(rs);
    FoldLast(rs);
  }

  /** The output has exactly one record per distinct non-empty symbol of the input: as many
      records as symbols, each with a symbol, no symbol twice; an empty input gives an empty
      output. */
  lemma LatestOnePerSymbol(rs: seq<SignalRecord>)
    ensures |LatestSignals(rs)| == |TruthySymbols(rs)|
    ensures forall k :: 0 <= k < |LatestSignals(rs)| ==> HasSymbol(LatestSignals(rs)[k])
    ensures forall a, b :: 0 <= a < b < |LatestSignals(rs)| ==>
      LatestSignals(rs)[a].symbol != LatestSignals(rs)[b].symbol
    ensures rs == [] ==> LatestSignals(rs) == []
  {
    LatestSymbols(rs);
    FoldKeys(rs);
    DistinctCardinality(Fold(rs).order, Fold(rs).bySymbol.Keys);
  }

  /** Every non-empty symbol of the input has a record in the output, and no other symbol
      does. */
  lemma LatestCoversSymbols(rs: seq<SignalRecord>)
    ensures forall s :: s in TruthySymbols(rs) <==>
      exists k :: 0 <= k < |LatestSignals(rs)| && LatestSignals(rs)[k].symbol == Some(s)
  {
    LatestSymbols(rs);
    FoldKeys(rs);
    var l := Fold(rs);
    var out := LatestSignals(rs);
    forall s | s in TruthySymbols(rs)
      ensures exists k :: 0 <= k < |out| && out[k].symbol == Some(s)
    {
      var k :| 0 <= k < |l.order| && l.order[k] == s;
      assert out[k].symbol == Some(s);
    }
  }

  /** The output lists the symbols in the order of their first appearance in the input. */
  lemma LatestFirstAppearanceOrder(rs: seq<SignalRecord>)
    ensures var out := LatestSignals(rs);
      forall a, b :: 0 <= a < b < |out| ==>
        && HasSymbol(out[a]) && HasSymbol(out[b])
        && Occurs(rs, out[a].symbol.value) && Occurs(rs, out[b].symbol.value)
        && FirstIndexWith(rs, out[a].symbol.value) < FirstIndexWith(rs, out[b].symbol.value)
  {
    FoldKeys(rs);
    FoldLast(rs);
    FoldOrder(rs);
    LatestIsLastWrite(rs);
    var l := Fold(rs);
    var out := LatestSignals(rs);
    assert forall k :: 0 <= k < |out| ==> out[k].symbol == Some(l.order[k]);
  }

  lemma {:induction false} FoldSymboled(rs: seq<SignalRecord>)
    ensures Fold(Symboled(rs)) == Fold(rs)
    decreases |rs|
  {
    if rs != [] {
      var n := |rs| - 1;
      FoldSymboled(rs[..n]);
      var q := Symboled(rs[..n]);
      if HasSymbol(rs[n]) {
        assert Symboled(rs) == q + [rs[n]];
        assert (q + [rs[n]])[..|q|] == q;
      } else {
        assert Symboled(rs) == q;
      }
    }
  }

  /** Records with a missing or empty symbol contribute nothing: dropping them all leaves
      the output unchanged. */
  lemma LatestSkipsUnsymboled(rs: seq<SignalRecord>)
    ensures LatestSignals(Symboled(rs)) == LatestSignals(rs)
  {
    FoldSymboled(rs);
  }

  /** A sequence without repetitions whose elements are exactly the set's has the set's size. */
  lemma {:induction false} DistinctCardinality(xs: seq<string>, keys: set<string>)
    requires forall a, b :: 0 <= a < b < |xs| ==> xs[a] != xs[b]
    requires forall k :: 0 <= k < |xs| ==> xs[k] in keys
    requires forall s :: s in keys ==> s in xs
    ensures |keys| == |xs|
    decreases |xs|
  {
    if xs != [] {
      var n := |xs| - 1;
      var rest := keys - {xs[n]};
      forall s | s in rest
        ensures s in xs[..n]
      {
        var k :| 0 <= k < |xs| && xs[k] == s;
        assert k != n;
      }
      DistinctCardinality(xs[..n], rest);
    }
  }
}
