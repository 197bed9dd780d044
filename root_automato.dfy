/**
 * The finite-automaton engine behind the older editor: an automaton whose runs
 * read the input one character at a time, with subset construction,
 * partition-refinement minimisation and a saved record. "ε" is the empty move.
 */
module RootAutomato {
  import opened Symbols
  import opened NfaSpec
  import opened Subsets
  import opened Names
  import opened Minimization

  /** The literal the older editor uses for the empty move. */
  const Epsilon: string := "ε"

  /** One entry of the simulation history: the active states and the characters read. */
  datatype Step = Step(active: set<string>, index: nat)

  /** What `simulate_history` returns. */
  datatype Run = Run(history: seq<Step>, accepted: bool)

  /**
   * The active set after reading character `c`: the closure of the move on the
   * one-character label. A literal "ε" in the input follows the empty moves.
   */
  function CharStep(t: Transitions, cur: set<string>, c: char): set<string>
  {
    Closure(t, Move(t, cur, ToLabel([c], Epsilon)))
  }

  /** The set reached from `cur` by reading all of `w`. */
  function Reach(t: Transitions, cur: set<string>, w: string): set<string>
    decreases |w|
  {
    if w == [] then cur else Reach(t, CharStep(t, cur, w[0]), w[1..])
  }

  /** The history entries recorded after index `i`, one per remaining character. */
  function After(t: Transitions, cur: set<string>, input: string, i: nat): seq<Step>
    decreases |input| - i
  {
    if i >= |input| then []
    else
      var next := CharStep(t, cur, input[i]);
      [Step(next, i + 1)] + After(t, next, input, i + 1)
  }

  /** The whole run: no start gives an empty, rejecting history. */
  function Simulation(t: Transitions, finals: set<string>, start: Option<string>, input: string): Run
  {
    if start.None? || start.value == "" then Run([], false)
    else
      var c0 := Closure(t, {start.value});
      var h := [Step(c0, 0)] + After(t, c0, input, 0);
      Run(h, h[|h| - 1].active * finals != {})
  }

  /**
   * The entries after index `i` are numbered `i + 1` to `|input|`, each one the
   * step on the character before it, and the last holds the set reached by the
   * rest of the input.
   */
  lemma {:induction false} AfterShape(t: Transitions, cur: set<string>, input: string, i: nat)
    requires i <= |input|
    ensures var h := [Step(cur, i)] + After(t, cur, input, i);
      && |h| == |input| - i + 1
      && (forall j :: 0 <= j < |h| ==> h[j].index == i + j)
      && (forall j :: 0 <= j < |h| - 1 ==> h[j + 1].active == CharStep(t, h[j].active, input[i + j]))
      && h[|h| - 1].active == Reach(t, cur, input[i..])
    decreases |input| - i
  {
    var h := [Step(cur, i)] + After(t, cur, input, i);
    if i < |input| {
      var next := CharStep(t, cur, input[i]);
      var rest := [Step(next, i + 1)] + After(t, next, input, i + 1);
      assert h == [Step(cur, i)] + rest;
      AfterShape(t, next, input, i + 1);
      assert input[i..][1..] == input[i + 1..];
      forall j | 0 <= j < |h|
        ensures h[j].index == i + j
      {
        if j > 0 {
          assert h[j] == rest[j - 1];
        }
      }
      forall j | 0 <= j < |h| - 1
        ensures h[j + 1].active == CharStep(t, h[j].active, input[i + j])
      {
        if j > 0 {
          assert h[j] == rest[j - 1] && h[j + 1] == rest[j];
        }
      }
      assert h[|h| - 1] == rest[|rest| - 1];
    } else {
      assert input[i..] == [];
    }
  }

  /**
   * The history of `simulate_history`: with a start it has one entry per prefix
   * of the input, entry `i` recording `i` characters read, starting from the
   * closure of the start and each one the step on the next character; the run
   * accepts exactly when the set reached by the whole input holds a final state.
   */
  lemma SimulationShape(t: Transitions, finals: set<string>, start: Option<string>, input: string)
    ensures var r := Simulation(t, finals, start, input);
      && ((start.None? || start.value == "") ==> r == Run([], false))
      && (start.Some? && start.value != "" ==>
            var c0 := Closure(t, {start.value});
            && |r.history| == |input| + 1
            && r.history[0].active == c0
            && (forall i :: 0 <= i <= |input| ==> r.history[i].index == i)
            && (forall i :: 0 <= i < |input| ==>
                  r.history[i + 1].active == CharStep(t, r.history[i].active, input[i]))
            && (r.accepted <==> Reach(t, c0, input) * finals != {}))
  {
    if start.Some? && start.value != "" {
      AfterShape(t, Closure(t, {start.value}), input, 0);
      assert input[0..] == input;
    }
  }

  /** One character more: the recorded history grows by the step on it. */
  lemma HistoryGrows(t: Transitions, cur: set<string>, input: string, i: nat,
                     history: seq<Step>, whole: seq<Step>, next: set<string>, history': seq<Step>)
    requires i < |input|
    requires history + After(t, cur, input, i) == whole
    requires next == CharStep(t, cur, input[i])
    requires history' == history + [Step(next, i + 1)]
    ensures history' + After(t, next, input, i + 1) == whole
  {
    var rest := After(t, next, input, i + 1);
    assert After(t, cur, input, i) == [Step(next, i + 1)] + rest;
    assert history + ([Step(next, i + 1)] + rest) == (history + [Step(next, i + 1)]) + rest;
  }

  /**
   * The loop of `simulate_history`: for each character in turn, move on it and
   * close under empty moves, recording the new set with the count read so far.
   */
  method RunChars(t: Transitions, c0: set<string>, input: string) returns (history: seq<Step>, current: set<string>)
    ensures history == [Step(c0, 0)] + After(t, c0, input, 0)
    ensures current == history[|history| - 1].active
  {
    current := c0;
    history := [Step(c0, 0)];
    ghost var whole := history + After(t, c0, input, 0);
    var i := 0;
    while i < |input|
      invariant i <= |input|
      invariant history != [] && history[|history| - 1] == Step(current, i)
      invariant history + After(t, current, input, i) == whole
      decreases |input| - i
    {
      var moved := MoveStates(t, current, ToLabel([input[i]], Epsilon));
      var following := EpsilonClosure(t, moved);
      var after := history + [Step(following, i + 1)];
      HistoryGrows(t, current, input, i, history, whole, following, after);
      history, current, i := after, following, i + 1;
    }
  }

  /** The transition map of a DFA in `is_dfa`'s sense: one destination per key and no empty move. */
  predicate IsDfaMap(t: Transitions)
  {
    forall k :: k in t ==> |t[k]| == 1 && k.1.Sym?
  }

  /** Purging a state keeps a map deterministic. */
  lemma PurgeKeepsDfa(t: Transitions, q: string)
    requires IsDfaMap(t)
    ensures IsDfaMap(Purge(t, q))
  {
    PurgeKeepsSingle(t, q);
  }

  /** A map whose labels all come from a deterministic, properly labelled map is one as well. */
  lemma QuotientKeepsDfa(t: Transitions, q: Transitions)
    requires IsDfaMap(t) && ProperLabels(t, Epsilon)
    requires SingleTargets(q) && forall k :: k in q ==> exists s :: (s, k.1) in t
    ensures IsDfaMap(q) && ProperLabels(q, Epsilon)
  {
    forall k | k in q
      ensures k.1.Sym? && ProperLabel(k.1, Epsilon)
    {
      var s :| (s, k.1) in t;
    }
  }

  /** What `to_dfa` converts: the transitions and finals, trying every symbol of the alphabet. */
  function DfaSource(t: Transitions, finals: set<string>, alphabet: set<string>): Source
  {
    Source(t, finals, alphabet, Epsilon, (S, c) => NextActive(t, S, c))
  }

  /** Reading an input character by character reaches the subset that the subset construction follows. */
  lemma {:induction false} ReachIsSubsetRun(src: Source, t: Transitions, S: set<string>, input: string)
    requires src.t == t && Steps(src)
    requires forall i :: 0 <= i < |input| ==> [input[i]] != Epsilon
    ensures Reach(t, S, input) == SubsetRun(src, S, Word(input))
    decreases |input|
  {
    if input != [] {
      var w := Word(input);
      assert w[0] == [input[0]];
      assert w[1..] == Word(input[1..]);
      assert CharStep(t, S, input[0]) == src.step(S, w[0]);
      ReachIsSubsetRun(src, t, CharStep(t, S, input[0]), input[1..]);
    }
  }

  /**
   * On a map in `is_dfa`'s sense whose symbols never spell "ε", reading an input
   * character by character is following its word: a character "ε" moves
   * nowhere either way.
   */
  lemma {:induction false} ReachIsFollow(t: Transitions, S: set<string>, input: string)
    requires IsDfaMap(t) && ProperLabels(t, Epsilon)
    ensures Reach(t, S, input) == Follow(t, S, Word(input))
    decreases |input|
  {
    if input != [] {
      var c := input[0];
      WordTail(input);
      if [c] == Epsilon {
        assert Move(t, S, Eps) == {};
        assert Move(t, S, Sym([c])) == {};
      }
      assert CharStep(t, S, c) == NextActive(t, S, [c]);
      ReachIsFollow(t, CharStep(t, S, c), input[1..]);
    }
  }

  /**
   * On a map in `is_dfa`'s sense whose symbols never spell "ε", the set reached
   * from one state is the single state the walk ends in, or empty when the walk
   * gets stuck.
   */
  lemma ReachDfa(t: Transitions, q: string, input: string)
    requires IsDfaMap(t) && ProperLabels(t, Epsilon)
    ensures Reach(t, {q}, input) == (var r := Walk(t, q, Word(input)); if r.Some? then {r.value} else {})
  {
    ReachIsFollow(t, {q}, input);
    FollowDfa(t, q, Word(input));
  }

  /** Every entry holds at most one active state. */
  ghost predicate SinglePath(h: seq<Step>)
  {
    forall i :: 0 <= i < |h| ==> |h[i].active| <= 1
  }

  /** In a DFA a step from at most one state reaches at most one state. */
  lemma CharStepSmall(t: Transitions, S: set<string>, c: char)
    requires IsDfaMap(t) && ProperLabels(t, Epsilon) && |S| <= 1
    ensures |CharStep(t, S, c)| <= 1
  {
    ReachIsFollow(t, S, [c]);
    assert Reach(t, S, [c]) == CharStep(t, S, c);
    if S == {} {
      FollowOfEmpty(t, Word([c]));
    } else {
      var q :| q in S;
      OnlyMember(S, q);
      FollowDfa(t, q, Word([c]));
    }
  }

  /** Entries of a history whose first entry holds at most one state each hold at most one. */
  lemma {:induction false} DfaStepsSmall(t: Transitions, h: seq<Step>, input: string, i: nat)
    requires IsDfaMap(t) && ProperLabels(t, Epsilon)
    requires |h| == |input| + 1 && |h[0].active| <= 1
    requires forall j :: 0 <= j < |input| ==> h[j + 1].active == CharStep(t, h[j].active, input[j])
    requires i < |h|
    ensures |h[i].active| <= 1
  {
    if i > 0 {
      DfaStepsSmall(t, h, input, i - 1);
      CharStepSmall(t, h[i - 1].active, input[i - 1]);
    }
  }

  /** In a DFA the simulation follows a single path: no entry of the history has two active states. */
  lemma DfaRunIsSinglePath(t: Transitions, finals: set<string>, start: Option<string>, input: string)
    requires IsDfaMap(t) && ProperLabels(t, Epsilon)
    ensures SinglePath(Simulation(t, finals, start, input).history)
  {
    SimulationShape(t, finals, start, input);
    if start.Some? && start.value != "" {
      var h := Simulation(t, finals, start, input).history;
      ClosureOfClosed(t, {start.value});
      forall i | 0 <= i < |h|
        ensures |h[i].active| <= 1
      {
        DfaStepsSmall(t, h, input, i);
      }
    }
  }

  /** Every run of a DFA, whatever the input, follows a single path. */
  lemma AllRunsSinglePath(t: Transitions, finals: set<string>, start: Option<string>)
    ensures IsDfaMap(t) && ProperLabels(t, Epsilon) ==>
      forall input :: SinglePath(Simulation(t, finals, start, input).history)
  {
    if IsDfaMap(t) && ProperLabels(t, Epsilon) {
      forall input
        ensures SinglePath(Simulation(t, finals, start, input).history)
      {
        DfaRunIsSinglePath(t, finals, start, input);
      }
    }
  }

  /**
   * `to_dfa` keeps the language: on an input whose characters are symbols of the
   * alphabet, the built automaton, simulated from "q0", accepts exactly when the
   * character-by-character simulation of the original accepts, and it does so
   * by walking from "q0" to a final state.
   */
  lemma ToDfaKeepsLanguage(t: Transitions, finals: set<string>, alphabet: set<string>, start: string,
                           b: Build, input: string)
    requires start != ""
    requires IsSubsetDfa(DfaSource(t, finals, alphabet), Closure(t, {start}), b)
    requires forall i :: 0 <= i < |input| ==> [input[i]] in alphabet && [input[i]] != Epsilon
    ensures Simulation(t, finals, Some(start), input).accepted <==>
      Simulation(b.trans, b.finals, Some("q0"), input).accepted
    ensures Simulation(t, finals, Some(start), input).accepted <==>
      (var r := Walk(b.trans, "q0", Word(input)); r.Some? && r.value in b.finals)
  {
    var src := DfaSource(t, finals, alphabet);
    var c0 := Closure(t, {start});
    var w := Word(input);
    assert TriedWord(src, w);
    assert start in c0;
    SubsetDfaAccepts(src, c0, b, w);
    ReachIsSubsetRun(src, t, c0, input);
    SimulationShape(t, finals, Some(start), input);
    SubsetDfaIsDeterministic(src, c0, b);
    assert IsDfaMap(b.trans) && ProperLabels(b.trans, Epsilon);
    ClosureOfClosed(b.trans, {"q0"});
    SimulationShape(b.trans, b.finals, Some("q0"), input);
    ReachDfa(b.trans, "q0", input);
    var r := Walk(b.trans, "q0", w);
    if r.Some? {
      assert r.value in b.finals <==> r.value in {r.value} * b.finals;
    }
  }

  /**
   * What `_make_complete` does to the transitions `t0`, states `s0` and
   * alphabet `a0`: nothing when every state has a key on every symbol of the
   * alphabet; otherwise it adds "_error", sends every missing key of every
   * state (the sink's own included) to it, and adds the symbols of the new keys
   * to the alphabet.
   */
  ghost predicate Completion(t0: Transitions, s0: set<string>, a0: set<string>, t: Transitions, s: set<string>,
                             a: set<string>)
  {
    if KeysFor(s0, a0, Epsilon) <= t0.Keys then t == t0 && s == s0 && a == a0
    else
      var keys := KeysFor(s0 + {ErrorState}, a0, Epsilon);
      t == FillMissing(t0, keys, ErrorState) && s == s0 + {ErrorState} && a == a0 + AddedLabels(t0, keys)
  }

  /**
   * Completion keeps the alphabet (every added key's symbol is already one of
   * its symbols), treats all states alike on every symbol afterwards, and
   * "_error" is a sink.
   */
  lemma CompletionStable(t0: Transitions, s0: set<string>, a0: set<string>, t: Transitions, sts: set<string>,
                         a: set<string>)
    requires WithinStates(t0, s0) && ErrorState !in s0
    requires Completion(t0, s0, a0, t, sts, a)
    ensures a == a0 && Uniform(t, sts, a, Epsilon) && Sink(t, ErrorState, a, Epsilon)
  {
    if KeysFor(s0, a0, Epsilon) <= t0.Keys {
      SinkAbsent(t0, s0, ErrorState, a, Epsilon);
    } else {
      var keys := KeysFor(s0 + {ErrorState}, a0, Epsilon);
      AddedWithin(t0, s0 + {ErrorState}, a0, Epsilon);
      AbsorbSubset(a0, AddedLabels(t0, keys));
      FilledSink(t0, s0, keys, ErrorState, a, Epsilon);
    }
    CompleteIsUniform(t, sts, a, a0, Epsilon);
  }

  /**
   * The completed map of a consistent automaton that passes `is_dfa` and has
   * no state "_error", with the blocks of its refinement, is what the language
   * argument of `minimize` starts from; purging the sink gives back the
   * original map.
   */
  lemma CompletedSetting(t0: Transitions, s0: set<string>, f0: set<string>, a0: set<string>, t: Transitions,
                         s: set<string>, a: set<string>, blocks: seq<set<string>>)
    requires IsDfaMap(t0) && NoEmptyTargets(t0) && WithinStates(t0, s0)
    requires f0 <= s0 && ErrorState !in s0
    requires Completion(t0, s0, a0, t, s, a)
    requires Partition(blocks, s + f0) && Respects(blocks, f0)
    requires f0 <= s && SingleTargets(t) && WithinStates(t, s) && Uniform(t, s, a, Epsilon) ==>
      Congruent(blocks, t, a, Epsilon)
    ensures StableSetting(t, s, f0, blocks, a, Epsilon, ErrorState)
    ensures s - {ErrorState} == s0 && Purge(t, ErrorState) == t0
  {
    CompletionStable(t0, s0, a0, t, s, a);
    CompletedShape(t0, s0, a0, t, s, a);
    assert s + f0 == s;
  }

  /** Completion keeps one destination per key and the states, and purging the sink undoes it. */
  lemma CompletedShape(t0: Transitions, s0: set<string>, a0: set<string>, t: Transitions, s: set<string>,
                       a: set<string>)
    requires IsDfaMap(t0) && NoEmptyTargets(t0) && WithinStates(t0, s0) && ErrorState !in s0
    requires Completion(t0, s0, a0, t, s, a)
    ensures SingleTargets(t) && WithinStates(t, s) && Purge(t, ErrorState) == t0
    ensures s0 <= s && s - {ErrorState} == s0
  {
    CompletedStates(t0, s0, a0, t, s, a);
    if KeysFor(s0, a0, Epsilon) <= t0.Keys {
      PurgeAbsent(t0, ErrorState, s0);
    } else {
      FilledShape(t0, s0, a0, Epsilon, ErrorState);
    }
  }

  /** Completion adds at most the sink to the states. */
  lemma CompletedStates(t0: Transitions, s0: set<string>, a0: set<string>, t: Transitions, s: set<string>,
                        a: set<string>)
    requires ErrorState !in s0 && Completion(t0, s0, a0, t, s, a)
    ensures s0 <= s && s - {ErrorState} == s0
  {
    if KeysFor(s0, a0, Epsilon) <= t0.Keys {
      RemoveAbsent(s0, ErrorState);
    } else {
      AddRemove(s0, ErrorState);
    }
  }

  class Automato {
    var states: set<string>
    var start: Option<string>
    var finals: set<string>
    var transitions: Transitions
    var alphabet: set<string>

    /** No key maps to an empty set and no symbol spells the epsilon literal. */
    ghost predicate Valid()
      reads this
    {
      NoEmptyTargets(transitions) && ProperLabels(transitions, Epsilon)
    }

    /** Everything the automaton mentions is one of its states. */
    ghost predicate Consistent()
      reads this
    {
      && finals <= states
      && (start.Some? ==> start.value in states)
      && WithinStates(transitions, states)
    }

    constructor ()
      ensures Valid() && Consistent()
      ensures states == {} && start == None && finals == {} && transitions == map[] && alphabet == {}
    {
      states, start, finals, transitions, alphabet := {}, None, {}, map[], {};
    }

    /** An automaton with the given parts, as the editor builds one state and transition at a time. */
    constructor Of(states: set<string>, start: Option<string>, finals: set<string>, transitions: Transitions,
                   alphabet: set<string>)
      ensures this.states == states && this.start == start && this.finals == finals
      ensures this.transitions == transitions && this.alphabet == alphabet
    {
      this.states, this.start, this.finals := states, start, finals;
      this.transitions, this.alphabet := transitions, alphabet;
    }

    /** `add_state`: the first state added, or one marked as start, becomes the start. */
    method AddState(state: string, isStart: bool, isFinal: bool)
      modifies this
      ensures states == old(states) + {state}
      ensures start == if isStart || old(start).None? then Some(state) else old(start)
      ensures finals == if isFinal then old(finals) + {state} else old(finals)
      ensures transitions == old(transitions) && alphabet == old(alphabet)
      ensures old(Valid()) ==> Valid()
      ensures old(Consistent()) ==> Consistent()
    {
      states := states + {state};
      if isStart || start.None? {
        start := Some(state);
      }
      if isFinal {
        finals := finals + {state};
      }
    }

    /**
     * `add_transition`: both ends must be states, else `ValueError` and nothing
     * changes; the symbol joins the alphabet unless it is the empty move.
     */
    method AddTransition(src: string, symbol: string, dst: string) returns (status: Status)
      requires Valid()
      modifies this
      ensures Valid()
      ensures status == ValueError <==> src !in old(states) || dst !in old(states)
      ensures status == ValueError ==> unchanged(this)
      ensures status == Ok ==>
        && transitions == AddTarget(old(transitions), (src, ToLabel(symbol, Epsilon)), dst)
        && alphabet == (if symbol != Epsilon then old(alphabet) + {symbol} else old(alphabet))
        && states == old(states) && start == old(start) && finals == old(finals)
      ensures old(Consistent()) ==> Consistent()
    {
      if src !in states || dst !in states {
        return ValueError;
      }
      if symbol != Epsilon {
        alphabet := alphabet + {symbol};
      }
      transitions := AddTarget(transitions, (src, ToLabel(symbol, Epsilon)), dst);
      status := Ok;
    }

    /**
     * `remove_state`: an unknown state changes nothing; otherwise the state leaves
     * the states, the finals and the start, and every transition loses it.
     */
    method RemoveState(q: string)
      requires Valid()
      modifies this
      ensures Valid()
      ensures q !in old(states) ==> unchanged(this)
      ensures q in old(states) ==>
        && states == old(states) - {q}
        && start == (if old(start) == Some(q) then None else old(start))
        && finals == old(finals) - {q}
        && transitions == Purge(old(transitions), q)
        && alphabet == old(alphabet)
      ensures old(Consistent()) ==> Consistent()
    {
      if q !in states {
        return;
      }
      states := states - {q};
      if start == Some(q) {
        start := None;
      }
      finals := finals - {q};
      transitions := PurgeLoop(transitions, q);
    }

    /**
     * `remove_transition`: only `dst` leaves the key's set, and the key goes when
     * the set empties; every other key is untouched.
     */
    method RemoveTransition(src: string, symbol: string, dst: string)
      requires Valid()
      modifies this
      ensures Valid()
      ensures transitions == RemoveTarget(old(transitions), (src, ToLabel(symbol, Epsilon)), dst)
      ensures states == old(states) && start == old(start) && finals == old(finals) && alphabet == old(alphabet)
      ensures old(Consistent()) ==> Consistent()
    {
      transitions := RemoveTarget(transitions, (src, ToLabel(symbol, Epsilon)), dst);
    }

    /** `epsilon_closure`. */
    method EpsilonClosureOf(s: set<string>) returns (c: set<string>)
      ensures c == Closure(transitions, s)
    {
      c := EpsilonClosure(transitions, s);
    }

    /** `move`: the destinations of the `symbol`-transitions leaving `s`. */
    method MoveOn(s: set<string>, symbol: string) returns (r: set<string>)
      ensures r == Move(transitions, s, ToLabel(symbol, Epsilon))
      ensures forall d :: d in r <==>
        exists q :: q in s && (q, ToLabel(symbol, Epsilon)) in transitions && d in transitions[(q, ToLabel(symbol, Epsilon))]
    {
      r := MoveStates(transitions, s, ToLabel(symbol, Epsilon));
      MoveSpec(transitions, s, ToLabel(symbol, Epsilon));
    }

    /** `simulate_history`: the character-by-character run. */
    method SimulateHistory(input: string) returns (r: Run)
      ensures r == Simulation(transitions, finals, start, input)
    {
      if start.None? || start.value == "" {
        return Run([], false);
      }
      var c0 := EpsilonClosure(transitions, {start.value});
      var history, current := RunChars(transitions, c0, input);
      r := Run(history, current * finals != {});
    }

    /** `simulate`: the verdict of `simulate_history`. */
    method Simulate(input: string) returns (accepted: bool)
      ensures accepted == Simulation(transitions, finals, start, input).accepted
    {
      var r := SimulateHistory(input);
      accepted := r.accepted;
    }

    /** Some state lacks a transition on some symbol of the alphabet. */
    ghost predicate Incomplete()
      reads this
    {
      !(KeysFor(states, alphabet, Epsilon) <= transitions.Keys)
    }

    /** `is_dfa`: one destination per key and no empty move. */
    predicate IsDfa()
      reads this
      ensures IsDfa() && ProperLabels(transitions, Epsilon) ==>
        forall input :: SinglePath(Simulation(transitions, finals, start, input).history)
    {
      AllRunsSinglePath(transitions, finals, start);
      IsDfaMap(transitions)
    }

    /**
     * `to_dfa`: `None` without a start state; otherwise the subset construction
     * from the closure of the start, trying every symbol of the alphabet. The
     * result is deterministic in the sense of `is_dfa`, its start is "q0", and
     * it accepts what this automaton accepts (`ToDfaKeepsLanguage`).
     */
    method ToDfa() returns (dfa: Automato?, ghost b: Build)
      requires Valid()
      ensures (start.None? || start.value == "") <==> dfa == null
      ensures dfa != null ==>
        && fresh(dfa)
        && IsSubsetDfa(DfaSource(transitions, finals, alphabet), Closure(transitions, {start.value}), b)
        && dfa.states == b.states && dfa.start == Some("q0") && dfa.finals == b.finals
        && dfa.alphabet == b.alphabet && dfa.transitions == b.trans
        && dfa.Valid() && dfa.Consistent() && dfa.IsDfa()
    {
      if start.None? || start.value == "" {
        return null, Start(DfaSource(transitions, finals, alphabet), {});
      }
      var c0 := EpsilonClosure(transitions, {start.value});
      var t := transitions;
      var src := Source(t, finals, alphabet, Epsilon, (S, c) => NextActive(t, S, c));
      assert src == DfaSource(transitions, finals, alphabet);
      var built := Determinize(src, c0);
      SubsetDfaIsDeterministic(src, c0, built);
      dfa := new Automato.Of(built.states, Some("q0"), built.finals, built.trans, built.alphabet);
      b := built;
    }

    /**
     * `_make_complete`: when some state lacks a transition on some symbol of the
     * alphabet, the sink state "_error" is added and every such missing
     * transition, the sink's own included, is sent to it.
     */
    method MakeComplete()
      requires Valid()
      modifies this
      ensures Valid()
      ensures if KeysFor(old(states), old(alphabet), Epsilon) <= old(transitions).Keys then unchanged(this)
        else
          var keys := KeysFor(old(states) + {ErrorState}, old(alphabet), Epsilon);
          && states == old(states) + {ErrorState}
          && start == (if old(start).None? then Some(ErrorState) else old(start))
          && finals == old(finals)
          && transitions == FillMissing(old(transitions), keys, ErrorState)
          && alphabet == old(alphabet) + AddedLabels(old(transitions), keys)
      ensures old(Consistent()) ==> Consistent()
    {
      var syms := alphabet;
      var found := FindMissing(transitions, states, syms, Epsilon);
      if found {
        AddState(ErrorState, false, false);
        var keys := KeysFor(states, syms, Epsilon);
        KeysForProper(states, syms, Epsilon);
        FillMissingKeeps(transitions, keys, ErrorState, states);
        var t', alphabet' := FillLoop(transitions, alphabet, states, syms, Epsilon, ErrorState);
        transitions, alphabet := t', alphabet';
      }
    }

    /**
     * The first part of `minimize`: completion, then the refinement of the
     * states of the completed automaton into blocks. Only the sink's own keys
     * and the keys sent to it are new, so purging the sink gives what purging
     * the original gives.
     */
    method CompleteAndSplit() returns (blocks: seq<set<string>>)
      requires Valid() && IsDfa()
      modifies this
      ensures Valid() && SingleTargets(transitions)
      ensures !old(Incomplete()) ==> unchanged(this)
      ensures old(Incomplete()) ==>
        && states == old(states) + {ErrorState}
        && start == (if old(start).None? then Some(ErrorState) else old(start))
      ensures finals == old(finals) && old(alphabet) <= alphabet
      ensures states - {ErrorState} == old(states) - {ErrorState}
      ensures Purge(transitions, ErrorState) == Purge(old(transitions), ErrorState)
      ensures old(Consistent()) ==> Consistent()
      ensures Partition(blocks, states + finals) && Respects(blocks, finals)
      ensures Completion(old(transitions), old(states), old(alphabet), transitions, states, alphabet)
      ensures (finals <= states && SingleTargets(transitions) && WithinStates(transitions, states)
               && Uniform(transitions, states, alphabet, Epsilon)) ==> Congruent(blocks, transitions, alphabet, Epsilon)
    {
      ghost var t0 := transitions;
      ghost var keys := KeysFor(states + {ErrorState}, alphabet, Epsilon);
      MakeComplete();
      FillMissingKeeps(t0, keys, ErrorState, states);
      PurgeFilled(t0, keys, ErrorState);
      blocks := Refinement(states, finals, transitions, alphabet, Epsilon);
    }

    /**
     * The second part of `minimize`: when "_error" is a state it is removed, and
     * with it from the blocks; blocks left empty are dropped.
     */
    method DropSink(blocks: seq<set<string>>) returns (p: seq<set<string>>)
      requires Valid() && SingleTargets(transitions) && IsDfaMap(Purge(transitions, ErrorState))
      requires ErrorState !in states ==> IsDfaMap(transitions)
      requires Partition(blocks, states + finals) && Respects(blocks, finals)
      modifies this
      ensures Valid() && IsDfa()
      ensures states == old(states) - {ErrorState}
      ensures ErrorState in old(states) ==>
        && start == (if old(start) == Some(ErrorState) then None else old(start))
        && finals == old(finals) - {ErrorState}
        && transitions == Purge(old(transitions), ErrorState)
      ensures ErrorState !in old(states) ==> unchanged(this)
      ensures alphabet == old(alphabet)
      ensures old(Consistent()) ==> Consistent()
      ensures (forall i :: 0 <= i < |p| ==> p[i] != {}) && Partition(p, states + finals) && Respects(p, finals)
      ensures SameBlocksOff(p, blocks, ErrorState)
    {
      var b := blocks;
      if ErrorState in states {
        ghost var fin1 := finals;
        FilteredSpec(b, {ErrorState}, fin1);
        FilteredSameBlocksOff(b, {ErrorState}, ErrorState);
        RemoveState(ErrorState);
        b := Filtered(b, {ErrorState});
        RespectsDrop(b, fin1, ErrorState);
      } else {
        FilteredSameBlocksOff(b, {}, ErrorState);
      }
      FilteredSpec(b, {}, finals);
      p := Filtered(b, {});
    }

    /**
     * The part of `minimize` that changes the automaton itself: completion, the
     * refinement of its states into blocks, and the removal of the sink (and so
     * of any state named "_error") from the automaton and from the blocks.
     */
    method CompleteAndRefine() returns (p: seq<set<string>>, ghost completed: Transitions,
                                        ghost cstates: set<string>, ghost stable: seq<set<string>>)
      requires Valid() && IsDfa()
      modifies this
      ensures Valid() && IsDfa()
      ensures states == old(states) - {ErrorState}
      ensures ErrorState in old(states) || old(Incomplete()) ==>
        && start == (if old(start) == Some(ErrorState) then None else old(start))
        && finals == old(finals) - {ErrorState}
        && transitions == Purge(old(transitions), ErrorState)
      ensures ErrorState !in old(states) && !old(Incomplete()) ==>
        start == old(start) && finals == old(finals) && transitions == old(transitions)
      ensures old(alphabet) <= alphabet
      ensures old(Consistent()) ==> Consistent()
      ensures (forall i :: 0 <= i < |p| ==> p[i] != {}) && Partition(p, states + finals) && Respects(p, finals)
      ensures old(Consistent()) && ErrorState !in old(states) ==>
        states == old(states) && start == old(start) && finals == old(finals) && transitions == old(transitions)
      ensures SameBlocksOff(p, stable, ErrorState)
      ensures old(Consistent()) && ErrorState !in old(states) ==>
        && StableSetting(completed, cstates, old(finals), stable, alphabet, Epsilon, ErrorState)
        && cstates - {ErrorState} == old(states) && Purge(completed, ErrorState) == old(transitions)
    {
      ghost var t0, states0, start0, finals0, a0 := transitions, states, start, finals, alphabet;
      ghost var kept := Consistent() && ErrorState !in states0;
      var blocks := CompleteAndSplit();
      completed, cstates, stable := transitions, states, blocks;
      assert kept ==>
        && StableSetting(completed, cstates, finals0, stable, alphabet, Epsilon, ErrorState)
        && cstates - {ErrorState} == states0 && Purge(completed, ErrorState) == t0 by {
        if kept {
          CompletedSetting(t0, states0, finals0, a0, completed, cstates, alphabet, stable);
        }
      }
      ghost var st1 := start;
      PurgeKeepsDfa(t0, ErrorState);
      assert kept ==> Purge(t0, ErrorState) == t0 by {
        if kept {
          PurgeAbsent(t0, ErrorState, states0);
        }
      }
      p := DropSink(blocks);
      assert ErrorState in cstates ==> start == (if st1 == Some(ErrorState) then None else st1);
      assert kept ==> states == states0 && finals == finals0 by {
        if kept {
          RemoveAbsent(states0, ErrorState);
          RemoveAbsent(finals0, ErrorState);
        }
      }
    }

    /**
     * `minimize`: `ValueError` unless the automaton passes `is_dfa`. Otherwise it
     * is completed and refined, loses the sink, and the result is the quotient
     * over the named blocks: a well-formed automaton that passes `is_dfa`, no
     * larger than the original and, for a consistent automaton without a state
     * "_error" whose states are not block names, walking the quotient from the
     * block of a state ends in a final block exactly when walking the original
     * from that state ends in a final state.
     */
    method Minimize() returns (status: Status, result: Automato?, ghost blocks: seq<set<string>>,
                               ghost smap: map<string, string>)
      requires Valid()
      modifies this
      ensures Valid()
      ensures status == ValueError <==> !old(IsDfa())
      ensures status == ValueError ==> unchanged(this) && result == null
      ensures status == Ok ==>
        && result != null && fresh(result)
        && states == old(states) - {ErrorState}
        && (if ErrorState in old(states) || old(Incomplete()) then
              && start == (if old(start) == Some(ErrorState) then None else old(start))
              && finals == old(finals) - {ErrorState}
              && transitions == Purge(old(transitions), ErrorState)
            else start == old(start) && finals == old(finals) && transitions == old(transitions))
        && old(alphabet) <= alphabet
        && (forall i :: 0 <= i < |blocks| ==> blocks[i] != {})
        && Partition(blocks, states + finals) && Respects(blocks, finals)
        && IsQuotient(blocks, start, finals, transitions, smap,
                      result.states, result.start, result.finals, result.transitions, result.alphabet)
        && result.Valid() && result.Consistent() && result.IsDfa()
        && (old(Consistent()) ==> |result.states| <= |old(states)|)
        && (old(Consistent()) && ErrorState !in old(states) ==>
              states == old(states) && start == old(start) && finals == old(finals) && transitions == old(transitions))
      ensures status == Ok && old(Consistent()) && ErrorState !in old(states) && PlainNames(old(states)) ==>
        && smap.Keys == old(states)
        && KeepsLanguage(old(transitions), old(finals), result.transitions, result.finals, smap, alphabet, Epsilon)
        && (old(start).Some? ==> result.start == Some(smap[old(start).value]))
    {
      if !IsDfa() {
        return ValueError, null, [], map[];
      }
      ghost var t0, s0, f0, start0 := transitions, states, finals, start;
      ghost var language := Consistent() && ErrorState !in s0 && PlainNames(s0);
      var p, completed, cstates, stable := CompleteAndRefine();
      var st, fi, tr := start, finals, transitions;
      var r, sm := NewQuotient(p, st, fi, tr);
      ghost var names, qstart, qfinals, q, alph := r.states, r.start, r.finals, r.transitions, r.alphabet;
      assert old(Consistent()) ==> |names| <= |s0| by {
        if old(Consistent()) {
          QuotientNoLarger(p, s0);
        }
      }
      assert language ==>
        && sm.Keys == s0 && KeepsLanguage(t0, f0, q, qfinals, sm, alphabet, Epsilon)
        && (start0.Some? ==> qstart == Some(sm[start0.value])) by {
        if language {
          AbsorbSubset(s0, f0);
          Minimized(completed, cstates, f0, stable, alphabet, Epsilon, ErrorState, p, st, sm,
                    names, qstart, qfinals, q, alph);
        }
      }
      status, result, blocks, smap := Ok, r, p, sm;
    }

    /**
     * The new automaton of `minimize`: one state per named block, start and
     * finals carried over to their blocks, transitions joined block to block.
     */
    static method NewQuotient(p: seq<set<string>>, st: Option<string>, fi: set<string>, tr: Transitions)
      returns (r: Automato, ghost smap: map<string, string>)
      requires Disjoint(p) && (forall i :: 0 <= i < |p| ==> p[i] != {})
      requires IsDfaMap(tr) && ProperLabels(tr, Epsilon)
      ensures fresh(r)
      ensures IsQuotient(p, st, fi, tr, smap, r.states, r.start, r.finals, r.transitions, r.alphabet)
      ensures r.Valid() && r.Consistent() && r.IsDfa()
    {
      var names, qstart, qfinals, q, alph, sm := BuildQuotient(p, st, fi, tr);
      QuotientKeepsDfa(tr, q);
      r := new Automato.Of(names, qstart, qfinals, q, alph);
      smap := sm;
    }

    /** `to_json`: the saved record, one entry per transition key. */
    function ToJson(): (rec: Record)
      reads this
      ensures rec.states == states && rec.start == start && rec.finals == finals && rec.alphabet == alphabet
      ensures Valid() ==> TransitionsOf(rec.transitions, Epsilon) == transitions
    {
      AllEntriesLoad(transitions);
      Record(states, start, finals, alphabet, EntriesOf(transitions, Epsilon))
    }

    /** `from_json`: the sets are taken as saved and every entry's destinations are added. */
    constructor FromJson(rec: Record)
      ensures Valid()
      ensures states == rec.states && start == rec.start && finals == rec.finals && alphabet == rec.alphabet
      ensures transitions == TransitionsOf(rec.transitions, Epsilon)
    {
      var loaded := LoadTransitions(rec.transitions, Epsilon);
      states := rec.states;
      start := rec.start;
      finals := rec.finals;
      alphabet := rec.alphabet;
      transitions := loaded;
    }
  }

  /** Loading the entries saved from a well-formed map gives the map back. */
  lemma AllEntriesLoad(t: Transitions)
    ensures NoEmptyTargets(t) && ProperLabels(t, Epsilon) ==> TransitionsOf(EntriesOf(t, Epsilon), Epsilon) == t
  {
    if NoEmptyTargets(t) && ProperLabels(t, Epsilon) {
      TransitionsRoundTrip(t, Epsilon);
    }
  }
}
