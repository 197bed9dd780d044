/**
 * The transition tables of the deterministic machines (Moore, Mealy and
 * Turing): one entry per (source state, symbol) key. Here are the loops that
 * every one of those engines runs over its table -- listing the symbols that
 * leave a state, dropping the entries that touch a state, renaming a state --
 * the greedy longest-match run of the two transducers, and the loading of a
 * saved list of transitions.
 */
module Tables {
  import opened Symbols
  import opened Maps

  /** A transition key: the source state and the symbol read. */
  type Key = (string, string)

  /** The symbols labelling the entries that leave state `q`. */
  function Labels<V>(t: map<Key, V>, q: string): set<string>
  {
    set k | k in t && k.0 == q :: k.1
  }

  /** The loop collecting `possible_symbols`: every symbol of a key whose source is `q`. */
  method PossibleSymbols<V>(t: map<Key, V>, q: string) returns (r: set<string>)
    ensures r == Labels(t, q)
  {
    r := {};
    var todo := t.Keys;
    while todo != {}
      invariant todo <= t.Keys
      invariant r == set k | k in t.Keys - todo && k.0 == q :: k.1
      decreases todo
    {
      var k :| k in todo;
      if k.0 == q {
        r := r + {k.1};
      }
      todo := todo - {k};
    }
  }

  /** The symbols leaving `q` are exactly those of keys with source `q`. */
  lemma LabelsAreKeys<V>(t: map<Key, V>, q: string, m: string)
    ensures m in Labels(t, q) <==> (q, m) in t
  {
    if m in Labels(t, q) {
      var k :| k in t && k.0 == q && k.1 == m;
    }
  }

  /** No transition reads the empty string (an empty label never advances a run). */
  ghost predicate NonEmptyLabels<V>(t: map<Key, V>)
  {
    forall k :: k in t ==> k.1 != ""
  }

  /** Every key leaves a state and every entry leads to one; `dst` reads the destination off an entry. */
  ghost predicate TableWithin<V>(t: map<Key, V>, states: set<string>, dst: V -> string)
  {
    forall k :: k in t ==> k.0 in states && dst(t[k]) in states
  }

  /** The symbols of all the keys: what `add_transition` has put in the input alphabet. */
  function KeySymbols<V>(t: map<Key, V>): set<string>
  {
    set k | k in t :: k.1
  }

  /** Writing an entry adds its symbol to the key symbols. */
  lemma KeySymbolsAdd<V>(t: map<Key, V>, k: Key, v: V)
    ensures KeySymbols(t[k := v]) == KeySymbols(t) + {k.1}
  {
    assert k in t[k := v];
    forall x | x in KeySymbols(t[k := v])
      ensures x in KeySymbols(t) + {k.1}
    {
      var j :| j in t[k := v] && j.1 == x;
      if j != k {
        assert j in t;
      }
    }
  }

  /** Fewer keys have fewer symbols. */
  lemma KeySymbolsSub<V>(a: map<Key, V>, b: map<Key, V>)
    requires a.Keys <= b.Keys
    ensures KeySymbols(a) <= KeySymbols(b)
  {
  }

  /** The table `remove_state` keeps: the entries neither leaving nor entering `q`. */
  function Purged<V>(t: map<Key, V>, q: string, dst: V -> string): map<Key, V>
  {
    map k | k in t && k.0 != q && dst(t[k]) != q :: t[k]
  }

  /** The filtering loop of `remove_state`. */
  method PurgeTable<V>(t: map<Key, V>, q: string, dst: V -> string) returns (r: map<Key, V>)
    ensures r == Purged(t, q, dst)
  {
    r := map[];
    var todo := t.Keys;
    while todo != {}
      invariant todo <= t.Keys
      invariant r == map k | k in t.Keys - todo && k.0 != q && dst(t[k]) != q :: t[k]
      decreases todo
    {
      var k :| k in todo;
      if k.0 != q && dst(t[k]) != q {
        r := r[k := t[k]];
      }
      todo := todo - {k};
    }
  }

  /**
   * After the purge no entry mentions `q`, every other entry is still there
   * unchanged, and a table within the states is within the remaining states.
   */
  lemma PurgedForgets<V>(t: map<Key, V>, q: string, dst: V -> string, states: set<string>)
    ensures forall k :: k in Purged(t, q, dst) ==> k.0 != q && dst(Purged(t, q, dst)[k]) != q
    ensures forall k :: k in t && k.0 != q && dst(t[k]) != q ==> k in Purged(t, q, dst) && Purged(t, q, dst)[k] == t[k]
    ensures TableWithin(t, states, dst) ==> TableWithin(Purged(t, q, dst), states - {q}, dst)
  {
  }

  /** A state name after renaming `from` to `to`. */
  function Renamed(x: string, from: string, to: string): string
  {
    if x == from then to else x
  }

  /** A key after renaming its source state. */
  function RenamedKey(k: Key, from: string, to: string): Key
  {
    (Renamed(k.0, from, to), k.1)
  }

  /** The key renaming of `rename_state`, as a function value. */
  function RenameKey(from: string, to: string): Key -> Key
  {
    k => RenamedKey(k, from, to)
  }

  /** The key a renamed key came from, when `to` was not a source before. */
  function Unrename(j: Key, from: string, to: string): Key
  {
    if j.0 == to then (from, j.1) else j
  }

  /** Renaming cannot merge two sources: `to` is `from` itself or leaves no key. */
  ghost predicate FreeSource<V>(t: map<Key, V>, from: string, to: string)
  {
    from == to || forall k :: k in t ==> k.0 != to
  }

  /**
   * `r` is `t` with `from` renamed to `to`: each entry sits under its renamed
   * key with its value renamed by `rv`, and every key of `r` is such a key.
   */
  ghost predicate IsRenamed<V>(t: map<Key, V>, from: string, to: string, rv: V -> V, r: map<Key, V>)
  {
    && (forall k {:trigger RenamedKey(k, from, to)} :: k in t ==>
          RenamedKey(k, from, to) in r && r[RenamedKey(k, from, to)] == rv(t[k]))
    && (forall j :: j in r ==> Unrename(j, from, to) in t && RenamedKey(Unrename(j, from, to), from, to) == j)
  }

  /** The renaming loop of `rename_state`, with `rv` renaming the destination inside an entry. */
  method RenameTable<V(!new)>(t: map<Key, V>, from: string, to: string, rv: V -> V) returns (r: map<Key, V>)
    ensures ReindexedOn(t, t.Keys, Always(), RenameKey(from, to), rv, r)
    ensures FreeSource(t, from, to) ==> IsRenamed(t, from, to, rv, r)
    ensures KeySymbols(r) <= KeySymbols(t)
  {
    r := Reindex(t, Always(), RenameKey(from, to), rv);
    forall x | x in KeySymbols(r)
      ensures x in KeySymbols(t)
    {
      var j :| j in r && j.1 == x;
      var k :| k in t.Keys && Always<Key>()(k) && RenameKey(from, to)(k) == j && r[j] == rv(t[k]);
    }
    if FreeSource(t, from, to) {
      TableRenamed(t, from, to, rv, r);
    }
  }

  /** When `to` leaves no key, renaming merges no two entries, so the loop's result is the renamed table. */
  lemma TableRenamed<V>(t: map<Key, V>, from: string, to: string, rv: V -> V, r: map<Key, V>)
    requires ReindexedOn(t, t.Keys, Always(), RenameKey(from, to), rv, r) && FreeSource(t, from, to)
    ensures IsRenamed(t, from, to, rv, r)
  {
    forall k | k in t
      ensures RenamedKey(k, from, to) in r && r[RenamedKey(k, from, to)] == rv(t[k])
    {
      ReindexedKeeps(t, Always(), RenameKey(from, to), rv, r, k);
    }
    forall j | j in r
      ensures Unrename(j, from, to) in t && RenamedKey(Unrename(j, from, to), from, to) == j
    {
      var k :| k in t.Keys && Always<Key>()(k) && RenameKey(from, to)(k) == j && r[j] == rv(t[k]);
      assert Unrename(j, from, to) == k;
    }
  }

  /**
   * Renaming a state to a name not otherwise in use keeps a table within the
   * states, with `from` replaced by `to`, provided `rv` renames destinations.
   */
  lemma RenamedWithin<V>(t: map<Key, V>, from: string, to: string, rv: V -> V, dst: V -> string,
                         r: map<Key, V>, states: set<string>)
    requires TableWithin(t, states, dst) && IsRenamed(t, from, to, rv, r)
    requires forall k :: k in t ==> dst(rv(t[k])) == Renamed(dst(t[k]), from, to)
    ensures TableWithin(r, states - {from} + {to}, dst)
  {
    forall j | j in r
      ensures j.0 in states - {from} + {to} && dst(r[j]) in states - {from} + {to}
    {
      var k := Unrename(j, from, to);
      assert k in t && RenamedKey(k, from, to) == j;
    }
  }

  /**
   * Renaming back undoes a renaming: when `to` left no key and `rv'` undoes
   * `rv` on every entry, renaming `to` back to `from` gives the table again.
   */
  lemma RenameBack<V>(t: map<Key, V>, from: string, to: string, rv: V -> V, rv': V -> V,
                      r: map<Key, V>, r': map<Key, V>)
    requires from != to && FreeSource(t, from, to)
    requires IsRenamed(t, from, to, rv, r) && IsRenamed(r, to, from, rv', r')
    requires forall k :: k in t ==> rv'(rv(t[k])) == t[k]
    ensures r' == t
  {
    forall k | k in t
      ensures k in r' && r'[k] == t[k]
    {
      BackOne(t, from, to, rv, rv', r, r', k);
    }
    forall j | j in r'
      ensures j in t
    {
      BackTwo(t, from, to, rv, rv', r, r', j);
    }
    SameMaps(t, r');
  }

  /** Two maps with the same entries are equal. */
  lemma SameMaps<V>(a: map<Key, V>, b: map<Key, V>)
    requires forall k :: k in a ==> k in b && b[k] == a[k]
    requires forall k :: k in b ==> k in a
    ensures a == b
  {
  }

  /** An entry of the table survives renaming there and back. */
  lemma BackOne<V>(t: map<Key, V>, from: string, to: string, rv: V -> V, rv': V -> V,
                   r: map<Key, V>, r': map<Key, V>, k: Key)
    requires from != to && FreeSource(t, from, to) && k in t
    requires IsRenamed(t, from, to, rv, r) && IsRenamed(r, to, from, rv', r')
    requires rv'(rv(t[k])) == t[k]
    ensures k in r' && r'[k] == t[k]
  {
    var i := RenamedKey(k, from, to);
    assert i in r && r[i] == rv(t[k]);
    assert RenamedKey(i, to, from) == k;
  }

  /** A key after renaming there and back was a key of the table. */
  lemma BackTwo<V>(t: map<Key, V>, from: string, to: string, rv: V -> V, rv': V -> V,
                   r: map<Key, V>, r': map<Key, V>, j: Key)
    requires from != to && FreeSource(t, from, to) && j in r'
    requires IsRenamed(t, from, to, rv, r) && IsRenamed(r, to, from, rv', r')
    ensures j in t
  {
    var i := Unrename(j, to, from);
    assert i in r && RenamedKey(i, to, from) == j;
    var k := Unrename(i, from, to);
    assert k in t && RenamedKey(k, from, to) == i;
  }

  /** One entry of a transducer's history: the state, the output so far and how much input was consumed. */
  datatype Visit = Visit(state: string, output: string, index: nat)

  /** A transducer run after its first entry: the entries it adds, and whether it got stuck. */
  datatype Trace = Trace(visits: seq<Visit>, stuck: bool)

  /**
   * The greedy run of the transducers from entry `v`: while input is left,
   * take the longest label leaving the state that prefixes the rest of the
   * input, move to its destination (`dst`), append its output (`emit`) and
   * advance by the label's length; stop stuck when no label fits.
   */
  function Greedy<V>(t: map<Key, V>, dst: V -> string, emit: V -> string, v: Visit, input: string): Trace
    requires NonEmptyLabels(t)
    decreases |input| - v.index
  {
    if v.index >= |input| then Trace([], false)
    else match LongestMatch(Labels(t, v.state), input[v.index..])
      case None => Trace([], true)
      case Some(m) =>
        LabelsAreKeys(t, v.state, m);
        var w := Next(t, dst, emit, v, m);
        var rest := Greedy(t, dst, emit, w, input);
        Trace([w] + rest.visits, rest.stuck)
  }

  /** The entry after `v` when label `m` leaves its state. */
  function Next<V>(t: map<Key, V>, dst: V -> string, emit: V -> string, v: Visit, m: string): Visit
    requires (v.state, m) in t
  {
    var x := t[(v.state, m)];
    Visit(dst(x), v.output + emit(x), v.index + |m|)
  }

  /** The final output of a greedy run from `v`: none when it got stuck, else the output of its last entry. */
  function FinalOutput<V>(t: map<Key, V>, dst: V -> string, emit: V -> string, v: Visit, input: string): Option<string>
    requires NonEmptyLabels(t)
  {
    var tr := Greedy(t, dst, emit, v, input);
    if tr.stuck then None else Some(([v] + tr.visits)[|tr.visits|].output)
  }

  /** One greedy step: `b` follows `a` by the longest label that fits the rest of the input. */
  ghost predicate GreedyStep<V>(t: map<Key, V>, dst: V -> string, emit: V -> string, a: Visit, b: Visit, input: string)
  {
    && a.index < |input|
    && var m := LongestMatch(Labels(t, a.state), input[a.index..]);
    && m.Some? && (a.state, m.value) in t
    && b == Next(t, dst, emit, a, m.value)
  }

  /** The step of `simulate_history` that `Greedy` unfolds to. */
  lemma GreedyUnfold<V>(t: map<Key, V>, dst: V -> string, emit: V -> string, v: Visit, input: string, m: string, w: Visit)
    requires NonEmptyLabels(t) && v.index < |input|
    requires LongestMatch(Labels(t, v.state), input[v.index..]) == Some(m)
    requires w == Next(t, dst, emit, v, m)
    ensures Greedy(t, dst, emit, v, input) == Trace([w] + Greedy(t, dst, emit, w, input).visits, Greedy(t, dst, emit, w, input).stuck)
  {
  }

  /**
   * The loop of `simulate_history` from entry `v0`: the history is `v0`
   * followed by the greedy run, and the final output is missing exactly when
   * the run got stuck; otherwise it is the output of the last entry.
   */
  method RunGreedy<V>(t: map<Key, V>, dst: V -> string, emit: V -> string, v0: Visit, input: string)
    returns (history: seq<Visit>, output: Option<string>)
    requires NonEmptyLabels(t)
    ensures history == [v0] + Greedy(t, dst, emit, v0, input).visits
    ensures output.None? <==> Greedy(t, dst, emit, v0, input).stuck
    ensures output.Some? ==> output.value == history[|history| - 1].output
    ensures output == FinalOutput(t, dst, emit, v0, input)
  {
    var cur := v0;
    history := [v0];
    ghost var whole := [v0] + Greedy(t, dst, emit, v0, input).visits;
    ghost var stuck := Greedy(t, dst, emit, v0, input).stuck;
    while cur.index < |input|
      invariant history != [] && history[|history| - 1] == cur
      invariant history + Greedy(t, dst, emit, cur, input).visits == whole
      invariant Greedy(t, dst, emit, cur, input).stuck == stuck
      decreases |input| - cur.index
    {
      var possible := PossibleSymbols(t, cur.state);
      var symbol := PickLongest(possible, input[cur.index..]);
      if symbol.None? {
        return history, None;
      }
      var m := symbol.value;
      LabelsAreKeys(t, cur.state, m);
      var w := Next(t, dst, emit, cur, m);
      GreedyUnfold(t, dst, emit, cur, input, m, w);
      assert history + ([w] + Greedy(t, dst, emit, w, input).visits) == (history + [w]) + Greedy(t, dst, emit, w, input).visits;
      history := history + [w];
      cur := w;
    }
    output := Some(cur.output);
  }

  /**
   * What a greedy run is: consecutive entries are greedy steps; it is stuck
   * exactly when its last entry has not consumed the whole input, and then no
   * label leaving the last state prefixes the rest of the input (see
   * `LongestMatchIsMaximal`).
   */
  lemma {:induction false} GreedyRun<V>(t: map<Key, V>, dst: V -> string, emit: V -> string, v: Visit, input: string)
    requires NonEmptyLabels(t) && v.index <= |input|
    ensures var h := [v] + Greedy(t, dst, emit, v, input).visits;
      && (forall i :: 0 <= i < |h| - 1 ==> GreedyStep(t, dst, emit, h[i], h[i + 1], input))
      && h[|h| - 1].index <= |input|
      && (Greedy(t, dst, emit, v, input).stuck <==> h[|h| - 1].index < |input|)
      && (Greedy(t, dst, emit, v, input).stuck ==>
            LongestMatch(Labels(t, h[|h| - 1].state), input[h[|h| - 1].index..]).None?)
    decreases |input| - v.index
  {
    if v.index < |input| {
      var lm := LongestMatch(Labels(t, v.state), input[v.index..]);
      if lm.Some? {
        var m := lm.value;
        LabelsAreKeys(t, v.state, m);
        assert |m| > 0;
        var w := Next(t, dst, emit, v, m);
        GreedyUnfold(t, dst, emit, v, input, m, w);
        GreedyRun(t, dst, emit, w, input);
        var h := [v] + Greedy(t, dst, emit, v, input).visits;
        var h' := [w] + Greedy(t, dst, emit, w, input).visits;
        assert h == [v] + h';
        forall i | 0 <= i < |h| - 1
          ensures GreedyStep(t, dst, emit, h[i], h[i + 1], input)
        {
          if i > 0 {
            assert h[i] == h'[i - 1] && h[i + 1] == h'[i];
          }
        }
      }
    }
  }

  /** A greedy step extends the output and consumes at least one character. */
  lemma StepGrows<V>(t: map<Key, V>, dst: V -> string, emit: V -> string, a: Visit, b: Visit, input: string)
    requires NonEmptyLabels(t) && GreedyStep(t, dst, emit, a, b, input)
    ensures a.output <= b.output && a.index < b.index <= |input|
  {
    var m := LongestMatch(Labels(t, a.state), input[a.index..]).value;
    assert |m| > 0;
  }

  /** Along a history made of greedy steps, outputs only grow and the consumed input strictly grows. */
  lemma {:induction false} HistoryGrows<V>(t: map<Key, V>, dst: V -> string, emit: V -> string, h: seq<Visit>, input: string,
                                           i: nat, j: nat)
    requires NonEmptyLabels(t)
    requires forall n :: 0 <= n < |h| - 1 ==> GreedyStep(t, dst, emit, h[n], h[n + 1], input)
    requires i < j < |h|
    ensures h[i].output <= h[j].output && h[i].index < h[j].index
    decreases j - i
  {
    StepGrows(t, dst, emit, h[j - 1], h[j], input);
    if i < j - 1 {
      HistoryGrows(t, dst, emit, h, input, i, j - 1);
    }
  }

  /** The list of saved transitions read back by `from_json`, entry by entry, later entries overwriting earlier ones. */
  function LoadAll<E, V>(es: seq<E>, decode: E -> Option<(Key, V)>, ok: ((Key, V)) -> bool): map<Key, V>
    decreases |es|
  {
    if es == [] then map[]
    else LoadEntry(LoadAll(es[..|es| - 1], decode, ok), es[|es| - 1], decode, ok)
  }

  /** Reading one more saved transition. */
  lemma LoadAllNext<E, V>(es: seq<E>, i: nat, decode: E -> Option<(Key, V)>, ok: ((Key, V)) -> bool)
    requires i < |es|
    ensures LoadAll(es[..i + 1], decode, ok) == LoadEntry(LoadAll(es[..i], decode, ok), es[i], decode, ok)
  {
    assert es[..i + 1][..i] == es[..i];
  }

  /** The prefix read so far stays loadable when the next entry loads. */
  lemma AllLoadNext<E, V>(es: seq<E>, i: nat, decode: E -> Option<(Key, V)>, ok: ((Key, V)) -> bool)
    requires i < |es| && AllLoad(es[..i], decode, ok)
    requires decode(es[i]).Some? && ok(decode(es[i]).value)
    ensures AllLoad(es[..i + 1], decode, ok)
  {
    assert forall j :: 0 <= j < i ==> es[..i + 1][j] == es[..i][j];
  }

  /** One entry that does not load makes the whole list fail to load. */
  lemma AllLoadFails<E, V>(es: seq<E>, i: nat, decode: E -> Option<(Key, V)>, ok: ((Key, V)) -> bool)
    requires i < |es| && !(decode(es[i]).Some? && ok(decode(es[i]).value))
    ensures !AllLoad(es, decode, ok)
  {
  }

  /** One saved transition: written under its key when it reads back (`decode`) and is acceptable (`ok`). */
  function LoadEntry<E, V>(t: map<Key, V>, e: E, decode: E -> Option<(Key, V)>, ok: ((Key, V)) -> bool): map<Key, V>
  {
    match decode(e)
    case None => t
    case Some(kv) => if ok(kv) then t[kv.0 := kv.1] else t
  }

  /** Every saved transition reads back and is acceptable: a strict loader raises on no entry. */
  predicate AllLoad<E, V>(es: seq<E>, decode: E -> Option<(Key, V)>, ok: ((Key, V)) -> bool)
  {
    forall i :: 0 <= i < |es| ==> decode(es[i]).Some? && ok(decode(es[i]).value)
  }

  /** `es` lists table `t`: entry `i` reads back as the entry of `t` under key `order[i]`, and the keys are all different. */
  ghost predicate Lists<E, V>(es: seq<E>, order: seq<Key>, t: map<Key, V>, decode: E -> Option<(Key, V)>)
  {
    && |es| == |order|
    && (forall i :: 0 <= i < |es| ==> order[i] in t && decode(es[i]) == Some((order[i], t[order[i]])))
    && (forall i, j :: 0 <= i < j < |order| ==> order[i] != order[j])
  }

  /**
   * Reading back a list of the entries of a table, each of them acceptable,
   * gives the table restricted to the listed keys: a list of every key gives
   * the table back.
   */
  lemma {:induction false} LoadListed<E, V>(es: seq<E>, order: seq<Key>, t: map<Key, V>,
                                           decode: E -> Option<(Key, V)>, ok: ((Key, V)) -> bool)
    requires Lists(es, order, t, decode)
    requires forall i :: 0 <= i < |es| ==> ok((order[i], t[order[i]]))
    ensures AllLoad(es, decode, ok)
    ensures LoadAll(es, decode, ok) == map k | k in order :: t[k]
    ensures (forall k :: k in t ==> k in order) ==> LoadAll(es, decode, ok) == t
    decreases |es|
  {
    if es != [] {
      var n := |es| - 1;
      var es', order' := es[..n], order[..n];
      assert Lists(es', order', t, decode);
      LoadListed(es', order', t, decode, ok);
      assert LoadAll(es, decode, ok) == LoadAll(es', decode, ok)[order[n] := t[order[n]]];
      assert forall k :: k in order <==> k in order' || k == order[n];
    }
  }

  /**
   * The skipping loading loop: entries that do not read back or are not
   * acceptable are passed over, and the symbol of each one written joins the
   * input alphabet.
   */
  method LoadSkipping<E, V>(es: seq<E>, decode: E -> Option<(Key, V)>, ok: ((Key, V)) -> bool)
    returns (t: map<Key, V>, symbols: set<string>)
    ensures t == LoadAll(es, decode, ok)
    ensures symbols == KeySymbols(t)
  {
    t, symbols := map[], {};
    for i := 0 to |es|
      invariant t == LoadAll(es[..i], decode, ok)
      invariant symbols == KeySymbols(t)
    {
      assert es[..i + 1][..i] == es[..i];
      var kv := decode(es[i]);
      if kv.Some? && ok(kv.value) {
        KeySymbolsAdd(t, kv.value.0, kv.value.1);
        t, symbols := t[kv.value.0 := kv.value.1], symbols + {kv.value.0.1};
      }
    }
    assert es[..|es|] == es;
  }

  /** Every loaded entry was acceptable, so a loader accepting only entries within the states loads a table within them. */
  lemma {:induction false} LoadedOk<E, V>(es: seq<E>, decode: E -> Option<(Key, V)>, ok: ((Key, V)) -> bool)
    ensures forall k :: k in LoadAll(es, decode, ok) ==> ok((k, LoadAll(es, decode, ok)[k]))
    decreases |es|
  {
    if es != [] {
      LoadedOk(es[..|es| - 1], decode, ok);
    }
  }
}
