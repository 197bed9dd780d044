/**
 * The Moore machine of the newer editor (core/maquina_moore.py): every state
 * carries an output symbol, transitions are keyed by (state, input label) with
 * one destination each, and a run reads the input greedily, always taking the
 * longest label that fits, and appends the output of every state it enters.
 */
module CoreMoore {
  import opened Symbols
  import opened Maps
  import opened Tables

  /** `output_function.get(q, '')`: the output of a state, empty for a state without one. */
  function OutputOf(outputs: map<string, string>, q: string): string
  {
    if q in outputs then outputs[q] else ""
  }

  /** The output appended on entering a destination, as a function value. */
  function Emit(outputs: map<string, string>): string -> string
  {
    q => OutputOf(outputs, q)
  }

  /** The outputs a machine uses. */
  function OutputValues(outputs: map<string, string>): set<string>
  {
    set q | q in outputs :: outputs[q]
  }

  /** The concatenated outputs of the states visited, in order. */
  function OutputsAlong(outputs: map<string, string>, vs: seq<Visit>): string
    decreases |vs|
  {
    if vs == [] then "" else OutputsAlong(outputs, vs[..|vs| - 1]) + OutputOf(outputs, vs[|vs| - 1].state)
  }

  /** A greedy step of a Moore machine appends exactly the output of the state entered. */
  lemma MooreStep(t: map<Key, string>, outputs: map<string, string>, a: Visit, b: Visit, input: string)
    requires GreedyStep(t, Same(), Emit(outputs), a, b, input)
    ensures b.output == a.output + OutputOf(outputs, b.state)
  {
  }

  /**
   * Along a Moore run, the output of every entry is the concatenation of the
   * outputs of the states visited up to it: the output is a function of the
   * path alone.
   */
  lemma {:induction false} MooreOutputs(t: map<Key, string>, outputs: map<string, string>, h: seq<Visit>, input: string, i: nat)
    requires h != [] && h[0].output == OutputOf(outputs, h[0].state)
    requires forall n :: 0 <= n < |h| - 1 ==> GreedyStep(t, Same(), Emit(outputs), h[n], h[n + 1], input)
    requires i < |h|
    ensures h[i].output == OutputsAlong(outputs, h[..i + 1])
  {
    if i == 0 {
      assert h[..1][..0] == [];
    } else {
      MooreOutputs(t, outputs, h, input, i - 1);
      MooreStep(t, outputs, h[i - 1], h[i], input);
      assert h[..i + 1][..i] == h[..i];
    }
  }

  /** The renaming of a destination, as a function value. */
  function RenameDst(from: string, to: string): string -> string
  {
    q => Renamed(q, from, to)
  }

  /** A saved transition; a field is `None` when the saved object lacks its key. */
  datatype MooreEntry = MooreEntry(src: Option<string>, input: Option<string>, dst: Option<string>)

  /** How `to_json` writes one transition. */
  function Encode(k: Key, dst: string): MooreEntry
  {
    MooreEntry(Some(k.0), Some(k.1), Some(dst))
  }

  /** How `from_json` reads one transition back: all three keys must be present. */
  function Decode(): MooreEntry -> Option<(Key, string)>
  {
    (e: MooreEntry) => if e.src.Some? && e.input.Some? && e.dst.Some? then Some(((e.src.value, e.input.value), e.dst.value)) else None
  }

  /** `add_transition` accepts a transition only between states. */
  function Between(states: set<string>): ((Key, string)) -> bool
  {
    (kv: (Key, string)) => kv.0.0 in states && kv.1 in states
  }

  /** The record `to_json` writes and `from_json` reads. */
  datatype MooreRecord = MooreRecord(states: set<string>, start: Option<string>, inputAlphabet: set<string>,
                                     outputAlphabet: set<string>, outputs: map<string, string>,
                                     transitions: seq<MooreEntry>)

  /**
   * The saved list of a table, read back between states holding every
   * transition, is the table again: `from_json` restores what `to_json` saved.
   */
  lemma TransitionsRoundTrip(es: seq<MooreEntry>, order: seq<Key>, t: map<Key, string>, states: set<string>)
    requires Lists(es, order, t, Decode()) && (forall k :: k in t ==> k in order)
    requires TableWithin(t, states, Same())
    ensures LoadAll(es, Decode(), Between(states)) == t
  {
    LoadListed(es, order, t, Decode(), Between(states));
  }

  /**
   * Renaming a state to an unused name and back gives the transitions back:
   * renaming loses nothing.
   */
  lemma RenameRoundTrip(t: map<Key, string>, states: set<string>, from: string, to: string,
                        r: map<Key, string>, r': map<Key, string>)
    requires TableWithin(t, states, Same()) && from in states && to !in states
    requires IsRenamed(t, from, to, RenameDst(from, to), r) && IsRenamed(r, to, from, RenameDst(to, from), r')
    ensures r' == t
  {
    RenameBack(t, from, to, RenameDst(from, to), RenameDst(to, from), r, r');
  }

  /** The `add_state` loop of `from_json`, over the saved outputs in some order. */
  method LoadStates(outputs: map<string, string>, start: Option<string>)
    returns (states: set<string>, outs: map<string, string>, st: Option<string>)
    ensures states == outputs.Keys && outs == outputs
    ensures start.Some? && start.value in outputs ==> st == start
    ensures st.Some? ==> st.value in outputs
    ensures st.None? <==> outputs == map[]
  {
    states, outs, st := {}, map[], None;
    var todo := outputs.Keys;
    while todo != {}
      invariant todo <= outputs.Keys && states == outputs.Keys - todo
      invariant outs == map q | q in states :: outputs[q]
      invariant st.Some? ==> st.value in states
      invariant st.None? <==> states == {}
      invariant start.Some? && start.value in states ==> st == start
      decreases todo
    {
      var q :| q in todo;
      states, outs := states + {q}, outs[q := outputs[q]];
      if Some(q) == start || st.None? {
        st := Some(q);
      }
      todo := todo - {q};
    }
  }

  /** Updating one output adds its symbol to the outputs in use, at most. */
  lemma OutputValuesAdd(outputs: map<string, string>, q: string, out: string)
    ensures OutputValues(outputs[q := out]) <= OutputValues(outputs) + {out}
  {
    forall x | x in OutputValues(outputs[q := out])
      ensures x in OutputValues(outputs) + {out}
    {
      var p :| p in outputs[q := out] && outputs[q := out][p] == x;
      if p != q {
        assert p in outputs;
      }
    }
  }

  /** Moving the output of `from` to `to` uses no new output symbol. */
  lemma OutputValuesMove(outputs: map<string, string>, from: string, to: string)
    requires from in outputs
    ensures OutputValues((outputs - {from})[to := outputs[from]]) <= OutputValues(outputs)
  {
    var o := (outputs - {from})[to := outputs[from]];
    forall x | x in OutputValues(o)
      ensures x in OutputValues(outputs)
    {
      var p :| p in o && o[p] == x;
      if p != to {
        assert p in outputs;
      }
    }
  }

  /** A Moore machine as the newer editor builds it. */
  class MaquinaMoore {
    var states: set<string>
    var start: Option<string>
    var inputAlphabet: set<string>
    var outputAlphabet: set<string>
    var outputs: map<string, string>
    var transitions: map<Key, string>

    /**
     * Every state has an output and only states do, the start is a state,
     * transitions run between states, and the alphabets hold every label and
     * every output.
     */
    ghost predicate Valid()
      reads this
    {
      && outputs.Keys == states
      && (start.Some? ==> start.value in states)
      && TableWithin(transitions, states, Same())
      && KeySymbols(transitions) <= inputAlphabet
      && OutputValues(outputs) <= outputAlphabet
    }

    constructor ()
      ensures Valid()
      ensures states == {} && start == None && inputAlphabet == {} && outputAlphabet == {}
      ensures outputs == map[] && transitions == map[]
    {
      states, start, inputAlphabet, outputAlphabet := {}, None, {}, {};
      outputs, transitions := map[], map[];
    }

    /** `add_state`: the state joins with its output; it becomes the start when marked so or when there is none. */
    method AddState(state: string, output: string, isStart: bool)
      modifies this
      ensures states == old(states) + {state}
      ensures outputs == old(outputs)[state := output]
      ensures outputAlphabet == old(outputAlphabet) + {output}
      ensures start == if isStart || old(start).None? then Some(state) else old(start)
      ensures inputAlphabet == old(inputAlphabet) && transitions == old(transitions)
      ensures old(Valid()) ==> Valid()
    {
      OutputValuesAdd(outputs, state, output);
      states, outputs, outputAlphabet := states + {state}, outputs[state := output], outputAlphabet + {output};
      if isStart || start.None? {
        start := Some(state);
      }
    }

    /**
     * `add_transition`: both ends must be states, else `ValueError` and nothing
     * changes; the label joins the input alphabet and the transition replaces
     * any other one with the same key.
     */
    method AddTransition(src: string, input: string, dst: string) returns (status: Status)
      modifies this
      ensures status == if src in old(states) && dst in old(states) then Ok else ValueError
      ensures status == ValueError ==> unchanged(this)
      ensures status == Ok ==>
        && transitions == old(transitions)[(src, input) := dst]
        && inputAlphabet == old(inputAlphabet) + {input}
        && states == old(states) && start == old(start) && outputs == old(outputs) && outputAlphabet == old(outputAlphabet)
      ensures old(Valid()) ==> Valid()
    {
      if src !in states || dst !in states {
        return ValueError;
      }
      status := Ok;
      KeySymbolsAdd(transitions, (src, input), dst);
      inputAlphabet, transitions := inputAlphabet + {input}, transitions[(src, input) := dst];
    }

    /**
     * `remove_state`: nothing happens for an unknown state; otherwise the state
     * and its output go, the start is cleared if it was the start, and every
     * transition from or to it goes.
     */
    method RemoveState(q: string)
      modifies this
      ensures q !in old(states) ==> unchanged(this)
      ensures q in old(states) ==>
        && states == old(states) - {q}
        && outputs == old(outputs) - {q}
        && start == (if old(start) == Some(q) then None else old(start))
        && transitions == Purged(old(transitions), q, Same())
        && inputAlphabet == old(inputAlphabet) && outputAlphabet == old(outputAlphabet)
      ensures old(Valid()) ==> Valid()
    {
      if q !in states {
        return;
      }
      var t := PurgeTable(transitions, q, Same());
      PurgedForgets(transitions, q, Same(), states);
      KeySymbolsSub(t, transitions);
      var newStart := if start == Some(q) then None else start;
      states, outputs, start, transitions := states - {q}, outputs - {q}, newStart, t;
    }

    /**
     * `rename_state`: `ValueError` when the old name is not a state or the new
     * one is another state. Otherwise the state and the start are renamed; then
     * the output moves to the new name -- `KeyError`, with the states and the
     * start already renamed, when the old name had no output -- and every
     * transition source and destination is renamed.
     */
    method RenameState(from: string, to: string) returns (status: Status)
      modifies this
      ensures status == ValueError <==> from !in old(states) || (to in old(states) && to != from)
      ensures status == ValueError ==> unchanged(this)
      ensures status != ValueError ==>
        && states == old(states) - {from} + {to}
        && start == (if old(start) == Some(from) then Some(to) else old(start))
        && inputAlphabet == old(inputAlphabet) && outputAlphabet == old(outputAlphabet)
      ensures status == KeyError <==> status != ValueError && from !in old(outputs)
      ensures status == KeyError ==> outputs == old(outputs) && transitions == old(transitions)
      ensures status == Ok ==>
        && outputs == (old(outputs) - {from})[to := old(outputs)[from]]
        && ReindexedOn(old(transitions), old(transitions).Keys, Always(), RenameKey(from, to), RenameDst(from, to), transitions)
      ensures old(Valid()) ==> status != KeyError && Valid()
      ensures old(Valid()) && status == Ok ==> IsRenamed(old(transitions), from, to, RenameDst(from, to), transitions)
    {
      if from !in states || (to in states && to != from) {
        return ValueError;
      }
      var newStart := if start == Some(from) then Some(to) else start;
      states, start := states - {from} + {to}, newStart;
      if from !in outputs {
        return KeyError;
      }
      status := Ok;
      OutputValuesMove(outputs, from, to);
      var t := RenameTable(transitions, from, to, RenameDst(from, to));
      if TableWithin(transitions, old(states), Same()) {
        RenamedWithin(transitions, from, to, RenameDst(from, to), Same(), t, old(states));
      }
      outputs, transitions := (outputs - {from})[to := outputs[from]], t;
    }

    /** `remove_transition`: the transition under the key goes, if there is one. */
    method RemoveTransition(src: string, input: string)
      modifies this
      ensures transitions == old(transitions) - {(src, input)}
      ensures states == old(states) && start == old(start) && outputs == old(outputs)
      ensures inputAlphabet == old(inputAlphabet) && outputAlphabet == old(outputAlphabet)
      ensures old(Valid()) ==> Valid()
    {
      KeySymbolsSub(transitions - {(src, input)}, transitions);
      if (src, input) in transitions {
        transitions := transitions - {(src, input)};
      }
    }

    /**
     * `simulate_history`: no run without a start state. Otherwise the history
     * starts at the start state with its output and nothing consumed; each
     * later entry follows the previous one by the longest label that fits the
     * rest of the input, and its output is the concatenation of the outputs of
     * the states visited so far. The final output is missing exactly when the
     * run stopped before the end of the input; otherwise it is the last output.
     */
    method SimulateHistory(input: string) returns (history: seq<Visit>, output: Option<string>)
      requires NonEmptyLabels(transitions)
      ensures (start.None? || start.value == "") ==> history == [] && output == None
      ensures start.Some? && start.value != "" ==>
        && history != [] && history[0] == Visit(start.value, OutputOf(outputs, start.value), 0)
        && history == [history[0]] + Greedy(transitions, Same(), Emit(outputs), history[0], input).visits
        && (forall i :: 0 <= i < |history| - 1 ==> GreedyStep(transitions, Same(), Emit(outputs), history[i], history[i + 1], input))
        && (forall i :: 0 <= i < |history| ==> history[i].output == OutputsAlong(outputs, history[..i + 1]))
        && (output.None? <==> history[|history| - 1].index < |input|)
        && (output.Some? ==> output.value == history[|history| - 1].output && history[|history| - 1].index == |input|)
    {
      if start.None? || start.value == "" {
        return [], None;
      }
      var v0 := Visit(start.value, OutputOf(outputs, start.value), 0);
      history, output := RunGreedy(transitions, Same(), Emit(outputs), v0, input);
      GreedyRun(transitions, Same(), Emit(outputs), v0, input);
      forall i | 0 <= i < |history|
        ensures history[i].output == OutputsAlong(outputs, history[..i + 1])
      {
        MooreOutputs(transitions, outputs, history, input, i);
      }
    }

    /**
     * `to_json`: the sets and the output function as they are, the alphabets
     * without the empty symbol, and every transition written once, in some
     * order.
     */
    method ToJson() returns (rec: MooreRecord, ghost order: seq<Key>)
      ensures rec.states == states && rec.start == start && rec.outputs == outputs
      ensures rec.inputAlphabet == inputAlphabet - {""} && rec.outputAlphabet == outputAlphabet - {""}
      ensures Lists(rec.transitions, order, transitions, Decode())
      ensures forall k :: k in transitions <==> k in order
    {
      var t := transitions;
      var keys := SeqOf(t.Keys);
      var es := seq(|keys|, i requires 0 <= i < |keys| && keys[i] in t => Encode(keys[i], t[keys[i]]));
      order := keys;
      rec := MooreRecord(states, start, inputAlphabet - {""}, outputAlphabet - {""}, outputs, es);
    }

    /**
     * `from_json`: every saved output adds its state (the saved start becomes
     * the start when it is one of them); the output alphabet is the saved
     * outputs and the input alphabet the labels of the transitions kept;
     * transitions missing a key or not between states are skipped. When the
     * saved start is not a state, the first state loaded is the start, so the
     * final fallback to some state finds a valid start already.
     */
    constructor FromJson(rec: MooreRecord)
      ensures Valid()
      ensures states == rec.outputs.Keys && outputs == rec.outputs
      ensures outputAlphabet == OutputValues(rec.outputs)
      ensures transitions == LoadAll(rec.transitions, Decode(), Between(rec.outputs.Keys))
      ensures inputAlphabet == KeySymbols(transitions)
      ensures rec.start.Some? && rec.start.value in rec.outputs ==> start == rec.start
      ensures start.Some? ==> start.value in rec.outputs
      ensures start.None? <==> rec.outputs == map[]
    {
      var qs, outs, st := LoadStates(rec.outputs, rec.start);
      var t, symbols := LoadSkipping(rec.transitions, Decode(), Between(qs));
      LoadedOk(rec.transitions, Decode(), Between(qs));
      if st.None? || st.value !in qs {
        // Only with no saved state at all: the loop above makes its first state
        // the start, so the fallback to "any state" never has a state to pick.
        st := None;
      }
      states, start, inputAlphabet, outputAlphabet := qs, st, symbols, OutputValues(outs);
      outputs, transitions := outs, t;
    }
  }
}
