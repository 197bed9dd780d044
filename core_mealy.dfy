/**
 * The Mealy machine of the newer editor (core/maquina_mealy.py): transitions
 * are keyed by (state, input label) and carry a destination and an output
 * symbol; a run reads the input greedily, always taking the longest label that
 * fits, and appends the output of every transition it takes.
 */
module CoreMealy {
  import opened Symbols
  import opened Maps
  import opened Tables

  /** A transition's destination and output. */
  type Target = (string, string)

  /** The destination of a transition, as a function value. */
  function Dst(): Target -> string
  {
    (v: Target) => v.0
  }

  /** The output of a transition, as a function value. */
  function Out(): Target -> string
  {
    (v: Target) => v.1
  }

  /** The outputs the transitions emit. */
  function Emitted(t: map<Key, Target>): set<string>
  {
    set k | k in t :: t[k].1
  }

  /** The renaming of a destination inside a transition, as a function value. */
  function RenameTarget(from: string, to: string): Target -> Target
  {
    (v: Target) => (Renamed(v.0, from, to), v.1)
  }

  /** A greedy step of a Mealy machine appends exactly the output of the transition taken. */
  lemma MealyStep(t: map<Key, Target>, a: Visit, b: Visit, input: string)
    requires GreedyStep(t, Dst(), Out(), a, b, input)
    ensures var m := LongestMatch(Labels(t, a.state), input[a.index..]).value;
      b.state == t[(a.state, m)].0 && b.output == a.output + t[(a.state, m)].1 && b.index == a.index + |m|
  {
  }

  /** Writing a transition adds its output to the outputs emitted, at most. */
  lemma EmittedAdd(t: map<Key, Target>, k: Key, v: Target)
    ensures Emitted(t[k := v]) <= Emitted(t) + {v.1}
  {
    forall x | x in Emitted(t[k := v])
      ensures x in Emitted(t) + {v.1}
    {
      var j :| j in t[k := v] && t[k := v][j].1 == x;
      if j != k {
        assert j in t;
      }
    }
  }

  /** Fewer transitions emit fewer outputs. */
  lemma EmittedSub(a: map<Key, Target>, b: map<Key, Target>)
    requires forall k :: k in a ==> k in b && a[k] == b[k]
    ensures Emitted(a) <= Emitted(b)
  {
    forall x | x in Emitted(a)
      ensures x in Emitted(b)
    {
      var j :| j in a && a[j].1 == x;
      assert j in b;
    }
  }

  /** Renaming keeps every output. */
  lemma EmittedRenamed(t: map<Key, Target>, from: string, to: string, r: map<Key, Target>)
    requires ReindexedOn(t, t.Keys, Always(), RenameKey(from, to), RenameTarget(from, to), r)
    ensures Emitted(r) <= Emitted(t)
  {
    forall x | x in Emitted(r)
      ensures x in Emitted(t)
    {
      var j :| j in r && r[j].1 == x;
      var k :| k in t.Keys && Always<Key>()(k) && RenameKey(from, to)(k) == j && r[j] == RenameTarget(from, to)(t[k]);
      assert t[k].1 == x;
    }
  }

  /**
   * Renaming a state to an unused name and back gives the transitions back:
   * renaming loses nothing.
   */
  lemma RenameRoundTrip(t: map<Key, Target>, states: set<string>, from: string, to: string,
                        r: map<Key, Target>, r': map<Key, Target>)
    requires TableWithin(t, states, Dst()) && from in states && to !in states
    requires IsRenamed(t, from, to, RenameTarget(from, to), r) && IsRenamed(r, to, from, RenameTarget(to, from), r')
    ensures r' == t
  {
    RenameBack(t, from, to, RenameTarget(from, to), RenameTarget(to, from), r, r');
  }

  /** A saved transition; a field is `None` when the saved object lacks its key. */
  datatype MealyEntry = MealyEntry(src: Option<string>, input: Option<string>, dst: Option<string>, output: Option<string>)

  /** How `to_json` writes one transition. */
  function Encode(k: Key, v: Target): MealyEntry
  {
    MealyEntry(Some(k.0), Some(k.1), Some(v.0), Some(v.1))
  }

  /** How `from_json` reads one transition back: all four keys must be present. */
  function Decode(): MealyEntry -> Option<(Key, Target)>
  {
    (e: MealyEntry) =>
      if e.src.Some? && e.input.Some? && e.dst.Some? && e.output.Some?
      then Some(((e.src.value, e.input.value), (e.dst.value, e.output.value)))
      else None
  }

  /** `add_transition` accepts a transition only between states. */
  function Between(states: set<string>): ((Key, Target)) -> bool
  {
    (kv: (Key, Target)) => kv.0.0 in states && kv.1.0 in states
  }

  /** The input labels of saved transitions. */
  function EntryInputs(es: seq<MealyEntry>): set<string>
  {
    set e | e in es && e.input.Some? :: e.input.value
  }

  /** The outputs of saved transitions. */
  function EntryOutputs(es: seq<MealyEntry>): set<string>
  {
    set e | e in es && e.output.Some? :: e.output.value
  }

  /** The start `from_json` ends with: the saved start when listed, else the first state listed, else none. */
  function LoadedStart(states: seq<string>, start: Option<string>): Option<string>
  {
    if start.Some? && start.value in states then start
    else if states == [] then None
    else Some(states[0])
  }

  /** The record `to_json` writes and `from_json` reads; the states are listed in some order. */
  datatype MealyRecord = MealyRecord(states: seq<string>, start: Option<string>, inputAlphabet: set<string>,
                                     outputAlphabet: set<string>, transitions: seq<MealyEntry>)

  /**
   * The saved list of a table, read back between states holding every
   * transition, is the table again: `from_json` restores what `to_json` saved.
   */
  lemma TransitionsRoundTrip(es: seq<MealyEntry>, order: seq<Key>, t: map<Key, Target>, states: set<string>)
    requires Lists(es, order, t, Decode()) && (forall k :: k in t ==> k in order)
    requires TableWithin(t, states, Dst())
    ensures AllLoad(es, Decode(), Between(states))
    ensures LoadAll(es, Decode(), Between(states)) == t
  {
    LoadListed(es, order, t, Decode(), Between(states));
  }

  /** A listed start is the start `from_json` restores. */
  lemma StartRoundTrip(states: seq<string>, start: Option<string>)
    requires start.Some? ==> start.value in states
    ensures start.Some? ==> LoadedStart(states, start) == start
  {
  }

  /** A Mealy machine as the newer editor builds it. */
  class MaquinaMealy {
    var states: set<string>
    var start: Option<string>
    var inputAlphabet: set<string>
    var outputAlphabet: set<string>
    var transitions: map<Key, Target>

    /** The start is a state, transitions run between states, and the alphabets hold every label and output used. */
    ghost predicate Valid()
      reads this
    {
      && (start.Some? ==> start.value in states)
      && TableWithin(transitions, states, Dst())
      && KeySymbols(transitions) <= inputAlphabet
      && Emitted(transitions) <= outputAlphabet
    }

    constructor ()
      ensures Valid()
      ensures states == {} && start == None && inputAlphabet == {} && outputAlphabet == {} && transitions == map[]
    {
      states, start, inputAlphabet, outputAlphabet, transitions := {}, None, {}, {}, map[];
    }

    /** `add_state`: the state joins; it becomes the start when marked so or when there is none. */
    method AddState(state: string, isStart: bool)
      modifies this
      ensures states == old(states) + {state}
      ensures start == if isStart || old(start).None? then Some(state) else old(start)
      ensures inputAlphabet == old(inputAlphabet) && outputAlphabet == old(outputAlphabet)
      ensures transitions == old(transitions)
      ensures old(Valid()) ==> Valid()
    {
      states := states + {state};
      if isStart || start.None? {
        start := Some(state);
      }
    }

    /**
     * `add_transition`: both ends must be states, else `ValueError` and nothing
     * changes; the label and the output join the alphabets and the transition
     * replaces any other one with the same key.
     */
    method AddTransition(src: string, input: string, dst: string, output: string) returns (status: Status)
      modifies this
      ensures status == if src in old(states) && dst in old(states) then Ok else ValueError
      ensures status == ValueError ==> unchanged(this)
      ensures status == Ok ==>
        && transitions == old(transitions)[(src, input) := (dst, output)]
        && inputAlphabet == old(inputAlphabet) + {input} && outputAlphabet == old(outputAlphabet) + {output}
        && states == old(states) && start == old(start)
      ensures old(Valid()) ==> Valid()
    {
      if src !in states || dst !in states {
        return ValueError;
      }
      status := Ok;
      KeySymbolsAdd(transitions, (src, input), (dst, output));
      EmittedAdd(transitions, (src, input), (dst, output));
      inputAlphabet, outputAlphabet := inputAlphabet + {input}, outputAlphabet + {output};
      transitions := transitions[(src, input) := (dst, output)];
    }

    /**
     * `remove_state`: nothing happens for an unknown state; otherwise the state
     * goes, the start is cleared if it was the start, and every transition
     * from or to it goes.
     */
    method RemoveState(q: string)
      modifies this
      ensures q !in old(states) ==> unchanged(this)
      ensures q in old(states) ==>
        && states == old(states) - {q}
        && start == (if old(start) == Some(q) then None else old(start))
        && transitions == Purged(old(transitions), q, Dst())
        && inputAlphabet == old(inputAlphabet) && outputAlphabet == old(outputAlphabet)
      ensures old(Valid()) ==> Valid()
    {
      if q !in states {
        return;
      }
      var t := PurgeTable(transitions, q, Dst());
      PurgedForgets(transitions, q, Dst(), states);
      KeySymbolsSub(t, transitions);
      EmittedSub(t, transitions);
      var newStart := if start == Some(q) then None else start;
      states, start, transitions := states - {q}, newStart, t;
    }

    /** `remove_transition`: the transition under the key goes, if there is one. */
    method RemoveTransition(src: string, input: string)
      modifies this
      ensures transitions == old(transitions) - {(src, input)}
      ensures states == old(states) && start == old(start)
      ensures inputAlphabet == old(inputAlphabet) && outputAlphabet == old(outputAlphabet)
      ensures old(Valid()) ==> Valid()
    {
      KeySymbolsSub(transitions - {(src, input)}, transitions);
      EmittedSub(transitions - {(src, input)}, transitions);
      if (src, input) in transitions {
        transitions := transitions - {(src, input)};
      }
    }

    /**
     * `rename_state`: `ValueError` when the old name is not a state or the new
     * one is another state; otherwise the state, the start and every transition
     * source and destination are renamed, outputs unchanged.
     */
    method RenameState(from: string, to: string) returns (status: Status)
      modifies this
      ensures status == if from !in old(states) || (to in old(states) && to != from) then ValueError else Ok
      ensures status == ValueError ==> unchanged(this)
      ensures status == Ok ==>
        && states == old(states) - {from} + {to}
        && start == (if old(start) == Some(from) then Some(to) else old(start))
        && ReindexedOn(old(transitions), old(transitions).Keys, Always(), RenameKey(from, to), RenameTarget(from, to), transitions)
        && inputAlphabet == old(inputAlphabet) && outputAlphabet == old(outputAlphabet)
      ensures old(Valid()) && status == Ok ==> IsRenamed(old(transitions), from, to, RenameTarget(from, to), transitions)
      ensures old(Valid()) ==> Valid()
    {
      if from !in states || (to in states && to != from) {
        return ValueError;
      }
      status := Ok;
      var t := RenameTable(transitions, from, to, RenameTarget(from, to));
      EmittedRenamed(transitions, from, to, t);
      if TableWithin(transitions, states, Dst()) {
        RenamedWithin(transitions, from, to, RenameTarget(from, to), Dst(), t, states);
      }
      var newStart := if start == Some(from) then Some(to) else start;
      states, start, transitions := states - {from} + {to}, newStart, t;
    }

    /**
     * `simulate_history`: no run without a start state. Otherwise the history
     * starts at the start state with empty output and nothing consumed; each
     * later entry follows the previous one by the longest label that fits the
     * rest of the input, appending that transition's output. The final output
     * is missing exactly when the run stopped before the end of the input;
     * otherwise it is the last output.
     */
    method SimulateHistory(input: string) returns (history: seq<Visit>, output: Option<string>)
      requires NonEmptyLabels(transitions)
      ensures (start.None? || start.value == "") ==> history == [] && output == None
      ensures start.Some? && start.value != "" ==>
        && history != [] && history[0] == Visit(start.value, "", 0)
        && history == [history[0]] + Greedy(transitions, Dst(), Out(), history[0], input).visits
        && (forall i :: 0 <= i < |history| - 1 ==> GreedyStep(transitions, Dst(), Out(), history[i], history[i + 1], input))
        && output == FinalOutput(transitions, Dst(), Out(), history[0], input)
        && (output.None? <==> history[|history| - 1].index < |input|)
        && (output.Some? ==> output.value == history[|history| - 1].output && history[|history| - 1].index == |input|)
    {
      if start.None? || start.value == "" {
        return [], None;
      }
      var v0 := Visit(start.value, "", 0);
      history, output := RunGreedy(transitions, Dst(), Out(), v0, input);
      GreedyRun(transitions, Dst(), Out(), v0, input);
    }

    /** `simulate`: the final output of `simulate_history`, none without a start state. */
    method Simulate(input: string) returns (output: Option<string>)
      requires NonEmptyLabels(transitions)
      ensures (start.None? || start.value == "") ==> output == None
      ensures start.Some? && start.value != "" ==> output == FinalOutput(transitions, Dst(), Out(), Visit(start.value, "", 0), input)
    {
      var _, out := SimulateHistory(input);
      output := out;
    }

    /** `to_json`: the states in some order and each once, the start, the alphabets and every transition once, in some order. */
    method ToJson() returns (rec: MealyRecord, ghost order: seq<Key>)
      ensures forall q :: q in rec.states <==> q in states
      ensures forall i, j :: 0 <= i < j < |rec.states| ==> rec.states[i] != rec.states[j]
      ensures rec.start == start && rec.inputAlphabet == inputAlphabet && rec.outputAlphabet == outputAlphabet
      ensures Lists(rec.transitions, order, transitions, Decode())
      ensures forall k :: k in transitions <==> k in order
    {
      var t := transitions;
      var keys := SeqOf(t.Keys);
      var es := seq(|keys|, i requires 0 <= i < |keys| && keys[i] in t => Encode(keys[i], t[keys[i]]));
      order := keys;
      var qs := SeqOf(states);
      rec := MealyRecord(qs, start, inputAlphabet, outputAlphabet, es);
    }
  }

  /**
   * `from_json`: every listed state is added in order (the saved start becomes
   * the start when listed, else the first state listed does), then every saved
   * transition is added in order; a transition missing a key (`KeyError`) or
   * not between states (`ValueError`) makes the whole load fail.
   */
  method FromJson(rec: MealyRecord) returns (r: Option<MaquinaMealy>)
    ensures r.None? <==> !AllLoad(rec.transitions, Decode(), Between(set q | q in rec.states))
    ensures r.Some? ==>
      && fresh(r.value) && r.value.Valid()
      && r.value.states == (set q | q in rec.states)
      && r.value.start == LoadedStart(rec.states, rec.start)
      && r.value.transitions == LoadAll(rec.transitions, Decode(), Between(set q | q in rec.states))
      && r.value.inputAlphabet == EntryInputs(rec.transitions)
      && r.value.outputAlphabet == EntryOutputs(rec.transitions)
  {
    var m := new MaquinaMealy();
    AddSavedStates(m, rec.states, rec.start);
    var ok := AddSavedTransitions(m, rec.transitions);
    r := if ok then Some(m) else None;
  }

  /** The `add_state` loop of `from_json`, over the listed states in order, on a new machine. */
  method AddSavedStates(m: MaquinaMealy, qs: seq<string>, start: Option<string>)
    requires m.Valid() && m.states == {} && m.start == None && m.transitions == map[]
    requires m.inputAlphabet == {} && m.outputAlphabet == {}
    modifies m
    ensures m.Valid() && m.states == (set q | q in qs) && m.start == LoadedStart(qs, start)
    ensures m.transitions == map[] && m.inputAlphabet == {} && m.outputAlphabet == {}
  {
    for i := 0 to |qs|
      invariant m.Valid() && m.states == (set q | q in qs[..i]) && m.start == LoadedStart(qs[..i], start)
      invariant m.transitions == map[] && m.inputAlphabet == {} && m.outputAlphabet == {}
    {
      assert qs[..i + 1] == qs[..i] + [qs[i]];
      m.AddState(qs[i], Some(qs[i]) == start);
    }
    assert qs[..|qs|] == qs;
  }

  /**
   * The `add_transition` loop of `from_json`: every saved transition is added
   * in order, and the first one missing a key or not between states stops
   * the loop with failure.
   */
  method AddSavedTransitions(m: MaquinaMealy, es: seq<MealyEntry>) returns (ok: bool)
    requires m.Valid() && m.transitions == map[] && m.inputAlphabet == {} && m.outputAlphabet == {}
    modifies m
    ensures ok <==> AllLoad(es, Decode(), Between(old(m.states)))
    ensures ok ==> m.Valid() && m.transitions == LoadAll(es, Decode(), Between(old(m.states)))
    ensures ok ==> m.inputAlphabet == EntryInputs(es) && m.outputAlphabet == EntryOutputs(es)
    ensures m.states == old(m.states) && m.start == old(m.start)
  {
    ghost var states, start := m.states, m.start;
    for i := 0 to |es|
      invariant Loading(m, states, start, es, i)
    {
      ok := AddSaved(m, es, i, states, start);
      if !ok {
        AllLoadFails(es, i, Decode(), Between(states));
        return false;
      }
    }
    assert es[..|es|] == es;
    ok := true;
  }

  /** What the loop of `from_json` keeps: the transitions read so far, and their labels and outputs in the alphabets. */
  ghost predicate Loading(m: MaquinaMealy, states: set<string>, start: Option<string>, es: seq<MealyEntry>, i: nat)
    reads m
  {
    && i <= |es|
    && m.Valid() && m.states == states && m.start == start
    && AllLoad(es[..i], Decode(), Between(states))
    && m.transitions == LoadAll(es[..i], Decode(), Between(states))
    && m.inputAlphabet == EntryInputs(es[..i]) && m.outputAlphabet == EntryOutputs(es[..i])
  }

  /** One turn of the loop of `from_json`: `KeyError` or `ValueError` on a bad entry, else `add_transition`. */
  method AddSaved(m: MaquinaMealy, es: seq<MealyEntry>, i: nat, ghost states: set<string>, ghost start: Option<string>)
    returns (ok: bool)
    requires i < |es| && Loading(m, states, start, es, i)
    modifies m
    ensures ok <==> Decode()(es[i]).Some? && Between(states)(Decode()(es[i]).value)
    ensures ok ==> Loading(m, states, start, es, i + 1)
    ensures !ok ==> unchanged(m)
  {
    LoadAllNext(es, i, Decode(), Between(states));
    var e := es[i];
    if e.src.None? || e.input.None? || e.dst.None? || e.output.None? {
      assert Decode()(e).None?;
      return false;
    }
    assert Decode()(e) == Some(((e.src.value, e.input.value), (e.dst.value, e.output.value)));
    assert Between(states)(((e.src.value, e.input.value), (e.dst.value, e.output.value))) <==> e.src.value in states && e.dst.value in states;
    var status := m.AddTransition(e.src.value, e.input.value, e.dst.value, e.output.value);
    ok := status == Ok;
    if ok {
      AllLoadNext(es, i, Decode(), Between(states));
      EntriesNext(es, i);
    }
  }

  /** One more saved transition adds its label and output to those of the entries read. */
  lemma EntriesNext(es: seq<MealyEntry>, i: nat)
    requires i < |es| && es[i].input.Some? && es[i].output.Some?
    ensures EntryInputs(es[..i + 1]) == EntryInputs(es[..i]) + {es[i].input.value}
    ensures EntryOutputs(es[..i + 1]) == EntryOutputs(es[..i]) + {es[i].output.value}
  {
    assert es[..i + 1] == es[..i] + [es[i]];
  }
}
