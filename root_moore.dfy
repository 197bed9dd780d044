/**
 * The Moore machine of the older editor (maquina_moore.py). Its editing
 * methods are the same code as the newer engine's (maquina_moore.py:21-75
 * against core/maquina_moore.py:23-77), so both share the class
 * `CoreMoore.MaquinaMoore`; what differs is modelled here: the run reads one
 * character per step, the saved record has no alphabets, and loading stops at
 * the first bad transition.
 */
module RootMoore {
  import opened Symbols
  import opened Maps
  import opened Tables
  import opened CoreMoore

  /** One entry of the older engine's history: the state and the output so far. */
  datatype Point = Point(state: string, output: string)

  /** A run after its first entry: the entries it adds, and whether it got stuck. */
  datatype Walk = Walk(points: seq<Point>, stuck: bool)

  /**
   * The run of the older engine from state `q` with output `out`: each
   * character of the input must label a transition leaving the current state,
   * whose destination is entered and its output appended; a character with no
   * transition leaves the run stuck.
   */
  function CharRun(t: map<Key, string>, outputs: map<string, string>, q: string, out: string, input: string): Walk
    decreases |input|
  {
    if input == [] then Walk([], false)
    else if (q, [input[0]]) !in t then Walk([], true)
    else
      var d := t[(q, [input[0]])];
      var p := Point(d, out + OutputOf(outputs, d));
      var rest := CharRun(t, outputs, d, p.output, input[1..]);
      Walk([p] + rest.points, rest.stuck)
  }

  /** The concatenated outputs of the states visited, in order. */
  function OutputsOf(outputs: map<string, string>, ps: seq<Point>): string
    decreases |ps|
  {
    if ps == [] then "" else OutputsOf(outputs, ps[..|ps| - 1]) + OutputOf(outputs, ps[|ps| - 1].state)
  }

  /** `b` follows `a` on character `c`: the transition exists, `b` is its destination and the output grows by the destination's output. */
  ghost predicate CharStep(t: map<Key, string>, outputs: map<string, string>, a: Point, c: char, b: Point)
  {
    (a.state, [c]) in t && b.state == t[(a.state, [c])] && b.output == a.output + OutputOf(outputs, b.state)
  }

  /** What one more step of the run adds. */
  lemma CharRunUnfold(t: map<Key, string>, outputs: map<string, string>, a: Point, input: string, p: Point)
    requires input != [] && (a.state, [input[0]]) in t
    requires p == Point(t[(a.state, [input[0]])], a.output + OutputOf(outputs, t[(a.state, [input[0]])]))
    ensures CharRun(t, outputs, a.state, a.output, input) ==
      Walk([p] + CharRun(t, outputs, p.state, p.output, input[1..]).points, CharRun(t, outputs, p.state, p.output, input[1..]).stuck)
  {
  }

  /**
   * What the run is: entry `i + 1` follows entry `i` on character `i`; it
   * reads the whole input exactly when it is not stuck, and when stuck the
   * next character has no transition from the last state.
   */
  lemma {:induction false} CharRunSteps(t: map<Key, string>, outputs: map<string, string>, a: Point, input: string)
    ensures var h := [a] + CharRun(t, outputs, a.state, a.output, input).points;
      && |h| <= |input| + 1
      && (forall i :: 0 <= i < |h| - 1 ==> CharStep(t, outputs, h[i], input[i], h[i + 1]))
      && (CharRun(t, outputs, a.state, a.output, input).stuck <==> |h| < |input| + 1)
      && (CharRun(t, outputs, a.state, a.output, input).stuck ==> (h[|h| - 1].state, [input[|h| - 1]]) !in t)
    decreases |input|
  {
    if input != [] && (a.state, [input[0]]) in t {
      var d := t[(a.state, [input[0]])];
      var p := Point(d, a.output + OutputOf(outputs, d));
      CharRunUnfold(t, outputs, a, input, p);
      CharRunSteps(t, outputs, p, input[1..]);
      var h := [a] + CharRun(t, outputs, a.state, a.output, input).points;
      var h' := [p] + CharRun(t, outputs, p.state, p.output, input[1..]).points;
      assert h == [a] + h';
      forall i | 0 <= i < |h| - 1
        ensures CharStep(t, outputs, h[i], input[i], h[i + 1])
      {
        if i > 0 {
          assert h[i] == h'[i - 1] && h[i + 1] == h'[i] && input[i] == input[1..][i - 1];
        }
      }
    }
  }

  /** Along the run, every output is the concatenation of the outputs of the states visited up to it. */
  lemma {:induction false} CharRunOutputs(t: map<Key, string>, outputs: map<string, string>, h: seq<Point>, input: string, i: nat)
    requires h != [] && h[0].output == OutputOf(outputs, h[0].state) && |h| <= |input| + 1
    requires forall n :: 0 <= n < |h| - 1 ==> CharStep(t, outputs, h[n], input[n], h[n + 1])
    requires i < |h|
    ensures h[i].output == OutputsOf(outputs, h[..i + 1])
  {
    if i == 0 {
      assert h[..1][..0] == [];
    } else {
      CharRunOutputs(t, outputs, h, input, i - 1);
      assert CharStep(t, outputs, h[i - 1], input[i - 1], h[i]);
      assert h[..i + 1][..i] == h[..i];
    }
  }

  /**
   * The `for` loop of `simulate_history` from entry `p0`: the history is `p0`
   * followed by the run, and the final output is missing exactly when the run
   * got stuck; otherwise it is the output of the last entry.
   */
  method RunChars(t: map<Key, string>, outputs: map<string, string>, p0: Point, input: string)
    returns (history: seq<Point>, output: Option<string>)
    ensures history == [p0] + CharRun(t, outputs, p0.state, p0.output, input).points
    ensures output.None? <==> CharRun(t, outputs, p0.state, p0.output, input).stuck
    ensures output.Some? ==> output.value == history[|history| - 1].output
  {
    var cur := p0;
    history := [p0];
    ghost var whole := [p0] + CharRun(t, outputs, p0.state, p0.output, input).points;
    ghost var stuck := CharRun(t, outputs, p0.state, p0.output, input).stuck;
    for i := 0 to |input|
      invariant history != [] && history[|history| - 1] == cur
      invariant history + CharRun(t, outputs, cur.state, cur.output, input[i..]).points == whole
      invariant CharRun(t, outputs, cur.state, cur.output, input[i..]).stuck == stuck
    {
      if (cur.state, [input[i]]) !in t {
        return history, None;
      }
      var d := t[(cur.state, [input[i]])];
      var p := Point(d, cur.output + OutputOf(outputs, d));
      assert input[i..][0] == input[i] && input[i..][1..] == input[i + 1..];
      CharRunUnfold(t, outputs, cur, input[i..], p);
      assert history + ([p] + CharRun(t, outputs, p.state, p.output, input[i + 1..]).points)
          == (history + [p]) + CharRun(t, outputs, p.state, p.output, input[i + 1..]).points;
      history := history + [p];
      cur := p;
    }
    output := Some(cur.output);
  }

  /**
   * `simulate_history` of the older engine: no run without a start state.
   * Otherwise the history starts at the start state with its output; every
   * character read moves along its transition and appends the output of the
   * state entered, so every output is the concatenation of the outputs of the
   * states visited. A character without a transition stops the run with no
   * final output; otherwise the history has one entry per character plus one
   * and the final output is the last one.
   */
  method SimulateHistory(m: MaquinaMoore, input: string) returns (history: seq<Point>, output: Option<string>)
    ensures (m.start.None? || m.start.value == "") ==> history == [] && output == None
    ensures m.start.Some? && m.start.value != "" ==>
      && history != [] && history[0] == Point(m.start.value, OutputOf(m.outputs, m.start.value))
      && history == [history[0]] + CharRun(m.transitions, m.outputs, m.start.value, history[0].output, input).points
      && |history| <= |input| + 1
      && (forall i :: 0 <= i < |history| - 1 ==> CharStep(m.transitions, m.outputs, history[i], input[i], history[i + 1]))
      && (forall i :: 0 <= i < |history| ==> history[i].output == OutputsOf(m.outputs, history[..i + 1]))
      && (output.Some? <==> |history| == |input| + 1)
      && (output.Some? ==> output.value == history[|history| - 1].output)
      && (output.None? ==> |history| <= |input| && (history[|history| - 1].state, [input[|history| - 1]]) !in m.transitions)
  {
    if m.start.None? || m.start.value == "" {
      return [], None;
    }
    var t, outputs := m.transitions, m.outputs;
    var p0 := Point(m.start.value, OutputOf(outputs, m.start.value));
    history, output := RunChars(t, outputs, p0, input);
    CharRunSteps(t, outputs, p0, input);
    forall i | 0 <= i < |history|
      ensures history[i].output == OutputsOf(outputs, history[..i + 1])
    {
      CharRunOutputs(t, outputs, history, input, i);
    }
  }

  /** The record the older engine saves: no alphabets. */
  datatype RootMooreRecord = RootMooreRecord(states: set<string>, start: Option<string>, outputs: map<string, string>,
                                             transitions: seq<MooreEntry>)

  /** `to_json` of the older engine: the states, the start, the outputs and every transition once, in some order. */
  method ToJson(m: MaquinaMoore) returns (rec: RootMooreRecord, ghost order: seq<Key>)
    ensures rec.states == m.states && rec.start == m.start && rec.outputs == m.outputs
    ensures Lists(rec.transitions, order, m.transitions, Decode())
    ensures forall k :: k in m.transitions <==> k in order
  {
    var t := m.transitions;
    var keys := SeqOf(t.Keys);
    var es := seq(|keys|, i requires 0 <= i < |keys| && keys[i] in t => Encode(keys[i], t[keys[i]]));
    order := keys;
    rec := RootMooreRecord(m.states, m.start, m.outputs, es);
  }

  /**
   * `from_json` of the older engine: every saved output adds its state (the
   * saved start becomes the start when it is one of them), then every saved
   * transition is added in order; a transition missing a key (`KeyError`) or
   * not between states (`ValueError`) makes the whole load fail.
   */
  method FromJson(rec: RootMooreRecord) returns (r: Option<MaquinaMoore>)
    ensures r.None? <==> !AllLoad(rec.transitions, Decode(), Between(rec.outputs.Keys))
    ensures r.Some? ==>
      && fresh(r.value) && r.value.Valid()
      && r.value.states == rec.outputs.Keys && r.value.outputs == rec.outputs
      && r.value.transitions == LoadAll(rec.transitions, Decode(), Between(rec.outputs.Keys))
      && r.value.outputAlphabet == OutputValues(rec.outputs)
      && r.value.inputAlphabet == KeySymbols(r.value.transitions)
      && (rec.start.Some? && rec.start.value in rec.outputs ==> r.value.start == rec.start)
      && (r.value.start.None? <==> rec.outputs == map[])
  {
    var m := new MaquinaMoore();
    AddSavedStates(m, rec.outputs, rec.start);
    var ok := AddSavedTransitions(m, rec.transitions);
    r := if ok then Some(m) else None;
  }

  /** The `add_state` loop of `from_json`, over the saved outputs in some order, on a new machine. */
  method AddSavedStates(m: MaquinaMoore, outputs: map<string, string>, start: Option<string>)
    requires m.Valid() && m.states == {} && m.outputs == map[] && m.start == None
    requires m.transitions == map[] && m.outputAlphabet == {} && m.inputAlphabet == {}
    modifies m
    ensures m.Valid() && m.states == outputs.Keys && m.outputs == outputs && m.transitions == map[]
    ensures m.inputAlphabet == {}
    ensures m.outputAlphabet == OutputValues(outputs)
    ensures start.Some? && start.value in outputs ==> m.start == start
    ensures m.start.None? <==> outputs == map[]
  {
    var todo := outputs.Keys;
    while todo != {}
      invariant StatesLoading(m, outputs, start, todo)
      decreases todo
    {
      var q :| q in todo;
      AddSavedState(m, outputs, start, todo, q);
      todo := todo - {q};
    }
    assert m.outputs == outputs;
  }

  /** What the `add_state` loop keeps: the states added so far, each with its saved output. */
  ghost predicate StatesLoading(m: MaquinaMoore, outputs: map<string, string>, start: Option<string>, todo: set<string>)
    reads m
  {
    && todo <= outputs.Keys
    && m.Valid() && m.states == outputs.Keys - todo && m.transitions == map[] && m.inputAlphabet == {}
    && (forall q :: q in m.outputs ==> q in outputs && m.outputs[q] == outputs[q])
    && m.outputAlphabet == OutputValues(m.outputs)
    && (m.start.None? <==> m.states == {})
    && (start.Some? && start.value in m.states ==> m.start == start)
  }

  /** One turn of the `add_state` loop. */
  method AddSavedState(m: MaquinaMoore, outputs: map<string, string>, start: Option<string>, todo: set<string>, q: string)
    requires q in todo && StatesLoading(m, outputs, start, todo)
    modifies m
    ensures StatesLoading(m, outputs, start, todo - {q})
  {
    OutputValuesFresh(m.outputs, q, outputs[q]);
    m.AddState(q, outputs[q], Some(q) == start);
  }

  /**
   * The `add_transition` loop of `from_json`: every saved transition is added
   * in order, and the first one missing a key or not between states stops
   * the loop with failure.
   */
  method AddSavedTransitions(m: MaquinaMoore, es: seq<MooreEntry>) returns (ok: bool)
    requires m.Valid() && m.transitions == map[]
    modifies m
    ensures ok <==> AllLoad(es, Decode(), Between(old(m.states)))
    ensures ok ==> m.Valid() && m.transitions == LoadAll(es, Decode(), Between(old(m.states)))
    ensures ok ==> m.inputAlphabet == old(m.inputAlphabet) + KeySymbols(m.transitions)
    ensures m.states == old(m.states) && m.outputs == old(m.outputs)
    ensures m.start == old(m.start) && m.outputAlphabet == old(m.outputAlphabet)
  {
    ghost var states, outputs, start, alpha, inputs := m.states, m.outputs, m.start, m.outputAlphabet, m.inputAlphabet;
    assert KeySymbols(m.transitions) == {};
    for i := 0 to |es|
      invariant Loading(m, states, outputs, start, alpha, inputs, es, i)
    {
      ok := AddSaved(m, es, i, states, outputs, start, alpha, inputs);
      if !ok {
        AllLoadFails(es, i, Decode(), Between(states));
        return false;
      }
    }
    assert es[..|es|] == es;
    ok := true;
  }

  /**
   * What the loop of `from_json` keeps: only the transitions and the input
   * alphabet change; the transitions are the ones read so far, and each of
   * their inputs has joined the alphabet.
   */
  ghost predicate Loading(m: MaquinaMoore, states: set<string>, outputs: map<string, string>, start: Option<string>,
                          alpha: set<string>, inputs: set<string>, es: seq<MooreEntry>, i: nat)
    reads m
  {
    && i <= |es|
    && m.Valid() && m.states == states && m.outputs == outputs && m.start == start && m.outputAlphabet == alpha
    && m.inputAlphabet == inputs + KeySymbols(m.transitions)
    && AllLoad(es[..i], Decode(), Between(states))
    && m.transitions == LoadAll(es[..i], Decode(), Between(states))
  }

  /** One turn of the loop of `from_json`: `KeyError` or `ValueError` on a bad entry, else `add_transition`. */
  method AddSaved(m: MaquinaMoore, es: seq<MooreEntry>, i: nat, ghost states: set<string>, ghost outputs: map<string, string>,
                  ghost start: Option<string>, ghost alpha: set<string>, ghost inputs: set<string>) returns (ok: bool)
    requires i < |es| && Loading(m, states, outputs, start, alpha, inputs, es, i)
    modifies m
    ensures ok <==> Decode()(es[i]).Some? && Between(states)(Decode()(es[i]).value)
    ensures ok ==> Loading(m, states, outputs, start, alpha, inputs, es, i + 1)
    ensures !ok ==> unchanged(m)
  {
    LoadAllNext(es, i, Decode(), Between(states));
    var e := es[i];
    if e.src.None? || e.input.None? || e.dst.None? {
      assert Decode()(e).None?;
      return false;
    }
    assert Decode()(e) == Some(((e.src.value, e.input.value), e.dst.value));
    assert Between(states)(((e.src.value, e.input.value), e.dst.value)) <==> e.src.value in states && e.dst.value in states;
    ghost var t0 := m.transitions;
    var status := m.AddTransition(e.src.value, e.input.value, e.dst.value);
    ok := status == Ok;
    if ok {
      KeySymbolsAdd(t0, (e.src.value, e.input.value), e.dst.value);
      AllLoadNext(es, i, Decode(), Between(states));
    }
  }

  /** A new state adds its output to the outputs in use. */
  lemma OutputValuesFresh(outputs: map<string, string>, q: string, out: string)
    requires q !in outputs
    ensures OutputValues(outputs[q := out]) == OutputValues(outputs) + {out}
  {
    OutputValuesAdd(outputs, q, out);
    assert q in outputs[q := out];
    forall x | x in OutputValues(outputs)
      ensures x in OutputValues(outputs[q := out])
    {
      var p :| p in outputs && outputs[p] == x;
      assert p in outputs[q := out];
    }
  }
}
