/**
 * The finite-automaton engine behind the newer editor: an automaton whose
 * transitions may carry multi-character labels, simulated by greedily taking the
 * longest label that prefixes the rest of the input, with subset construction,
 * partition-refinement minimisation and a saved record. "&" is the empty move.
 */
module CoreAutomato {
  import opened Symbols
  import opened NfaSpec
  import opened Subsets
  import opened Names
  import opened Minimization

  /** The literal the editor uses for the empty move. */
  const Epsilon: string := "&"

  /** One entry of the simulation history: the active states and the input consumed. */
  datatype Step = Step(active: set<string>, index: nat)

  /** What `simulate_history` returns. */
  datatype Run = Run(history: seq<Step>, accepted: bool)

  /** The labels, other than the empty move, of the transitions leaving `cur`. */
  function Candidates(t: Transitions, cur: set<string>): set<string>
  {
    set k | k in t && k.0 in cur && k.1.Sym? :: k.1.text
  }

  lemma CandidateNonEmpty(t: Transitions, cur: set<string>, m: string)
    requires NonEmptyLabels(t) && m in Candidates(t, cur)
    ensures |m| > 0
  {
    var k :| k in t && k.0 in cur && k.1.Sym? && k.1.text == m;
  }

  /**
   * The steps the simulation takes from active set `cur` at input index `idx`:
   * take the longest outgoing label that prefixes the rest of the input, move on
   * it, close under empty moves, and go on until the input is used up or no label
   * fits.
   */
  function Advance(t: Transitions, cur: set<string>, idx: nat, input: string): seq<Step>
    requires NonEmptyLabels(t)
    decreases |input| - idx
  {
    if idx >= |input| then []
    else
      match LongestMatch(Candidates(t, cur), input[idx..])
      case None => []
      case Some(sym) =>
        CandidateNonEmpty(t, cur, sym);
        var next := Closure(t, Move(t, cur, Sym(sym)));
        [Step(next, idx + |sym|)] + Advance(t, next, idx + |sym|, input)
  }

  /** The whole run: no start gives an empty, rejecting history. */
  function Simulation(t: Transitions, finals: set<string>, start: Option<string>, input: string): Run
    requires NonEmptyLabels(t)
  {
    if start.None? || start.value == "" then Run([], false)
    else
      var c0 := Closure(t, {start.value});
      if input == "" then Run([Step(c0, 0)], c0 * finals != {})
      else
        var h := [Step(c0, 0)] + Advance(t, c0, 0, input);
        var last := h[|h| - 1];
        Run(h, last.index == |input| && last.active * finals != {})
  }

  /** One unfolding of `Advance` when the greedy rule picks `sym`. */
  lemma AdvanceOn(t: Transitions, cur: set<string>, idx: nat, input: string, sym: string, next: set<string>, j: nat)
    requires NonEmptyLabels(t) && idx < |input|
    requires LongestMatch(Candidates(t, cur), input[idx..]) == Some(sym)
    requires next == NextActive(t, cur, sym) && j == idx + |sym|
    ensures idx < j <= |input|
    ensures Advance(t, cur, idx, input) == [Step(next, j)] + Advance(t, next, j, input)
  {
    CandidateNonEmpty(t, cur, sym);
  }

  /** When no label fits, `Advance` stops. */
  lemma AdvanceStuck(t: Transitions, cur: set<string>, idx: nat, input: string)
    requires NonEmptyLabels(t)
    requires idx >= |input| || LongestMatch(Candidates(t, cur), input[idx..]).None?
    ensures Advance(t, cur, idx, input) == []
  {
  }

  /** Appending the greedy step to the history keeps the rest of the run ahead of it. */
  lemma HistoryGrows(t: Transitions, cur: set<string>, idx: nat, input: string, sym: string,
                     history: seq<Step>, whole: seq<Step>,
                     cur': set<string>, idx': nat, history': seq<Step>)
    requires NonEmptyLabels(t) && idx < |input|
    requires LongestMatch(Candidates(t, cur), input[idx..]) == Some(sym)
    requires history + Advance(t, cur, idx, input) == whole
    requires cur' == NextActive(t, cur, sym) && idx' == idx + |sym|
    requires history' == history + [Step(cur', idx')]
    ensures idx < idx' <= |input|
    ensures history' + Advance(t, cur', idx', input) == whole
  {
    AdvanceOn(t, cur, idx, input, sym, cur', idx');
    var rest := Advance(t, cur', idx', input);
    Regroup(history, Step(cur', idx'), rest);
  }

  lemma Regroup(history: seq<Step>, step: Step, rest: seq<Step>)
    ensures history + ([step] + rest) == (history + [step]) + rest
  {
  }

  /** Nothing is active: the run stops at once. */
  lemma AdvanceFromNothing(t: Transitions, idx: nat, input: string)
    requires NonEmptyLabels(t)
    ensures Advance(t, {}, idx, input) == []
  {
    assert Candidates(t, {}) == {};
  }

  /** Indices strictly increase and lie in (lo, hi]. */
  ghost predicate IndicesBetween(r: seq<Step>, lo: nat, hi: nat)
  {
    (forall i :: 0 <= i < |r| ==> lo < r[i].index <= hi) &&
    (forall i, j :: 0 <= i < j < |r| ==> r[i].index < r[j].index)
  }

  /** Every later entry of a run has a larger index, never past the end of the input. */
  lemma {:induction false} AdvanceIndices(t: Transitions, cur: set<string>, idx: nat, input: string)
    requires NonEmptyLabels(t)
    ensures IndicesBetween(Advance(t, cur, idx, input), idx, |input|)
    decreases |input| - idx
  {
    if idx < |input| && LongestMatch(Candidates(t, cur), input[idx..]).Some? {
      var m := LongestMatch(Candidates(t, cur), input[idx..]).value;
      var next := NextActive(t, cur, m);
      var j := idx + |m|;
      AdvanceOn(t, cur, idx, input, m, next, j);
      AdvanceIndices(t, next, j, input);
      IndicesCons(Step(next, j), Advance(t, next, j, input), Advance(t, cur, idx, input), idx, |input|);
    } else {
      AdvanceStuck(t, cur, idx, input);
    }
  }

  lemma IndicesCons(s: Step, rest: seq<Step>, whole: seq<Step>, lo: nat, hi: nat)
    requires lo < s.index <= hi && IndicesBetween(rest, s.index, hi) && whole == [s] + rest
    ensures IndicesBetween(whole, lo, hi)
  {
  }

  /** History indices start at 0, strictly increase, and never exceed the input length. */
  lemma HistoryIndices(t: Transitions, finals: set<string>, start: Option<string>, input: string)
    requires NonEmptyLabels(t)
    ensures var h := Simulation(t, finals, start, input).history;
      (forall i :: 0 <= i < |h| ==> h[i].index <= |input|) &&
      (forall i, j :: 0 <= i < j < |h| ==> h[i].index < h[j].index) &&
      (start.Some? && start.value != "" ==> |h| > 0 && h[0] == Step(Closure(t, {start.value}), 0))
  {
    if start.Some? && start.value != "" && input != "" {
      AdvanceIndices(t, Closure(t, {start.value}), 0, input);
    }
  }

  /**
   * Consecutive entries of a run are one greedy step apart: the longest label of
   * the earlier entry's active set that prefixes the remaining input is consumed,
   * and the later active set is the closure of the move on it.
   */
  lemma {:induction false} AdvanceStep(t: Transitions, cur: set<string>, idx: nat, input: string, i: nat)
    requires NonEmptyLabels(t)
    requires i + 1 < |[Step(cur, idx)] + Advance(t, cur, idx, input)|
    ensures var h := [Step(cur, idx)] + Advance(t, cur, idx, input);
      GreedyPair(t, h[i], h[i + 1], input)
    decreases |input| - idx
  {
    if idx >= |input| || LongestMatch(Candidates(t, cur), input[idx..]).None? {
      AdvanceStuck(t, cur, idx, input);
    } else {
      var m := LongestMatch(Candidates(t, cur), input[idx..]).value;
      var next := NextActive(t, cur, m);
      var j := idx + |m|;
      AdvanceOn(t, cur, idx, input, m, next, j);
      var rest := [Step(next, j)] + Advance(t, next, j, input);
      ConsIndex(Step(cur, idx), rest, [Step(cur, idx)] + Advance(t, cur, idx, input), i);
      if i > 0 {
        AdvanceStep(t, next, j, input, i - 1);
      }
    }
  }

  /** The run ends short of the input only where no outgoing label prefixes the rest. */
  ghost predicate EndsStuck(t: Transitions, h: seq<Step>, input: string)
  {
    h != [] &&
    var last := h[|h| - 1];
    last.index < |input| ==> LongestMatch(Candidates(t, last.active), input[last.index..]).None?
  }

  /** A run ends short of the input only when no outgoing label prefixes the rest. */
  lemma {:induction false} AdvanceStops(t: Transitions, cur: set<string>, idx: nat, input: string)
    requires NonEmptyLabels(t)
    ensures EndsStuck(t, [Step(cur, idx)] + Advance(t, cur, idx, input), input)
    decreases |input| - idx
  {
    if idx < |input| && LongestMatch(Candidates(t, cur), input[idx..]).Some? {
      var m := LongestMatch(Candidates(t, cur), input[idx..]).value;
      var next := NextActive(t, cur, m);
      var j := idx + |m|;
      AdvanceOn(t, cur, idx, input, m, next, j);
      AdvanceStops(t, next, j, input);
      var rest := [Step(next, j)] + Advance(t, next, j, input);
      EndsStuckCons(t, Step(cur, idx), rest, [Step(cur, idx)] + Advance(t, cur, idx, input), input);
    } else {
      AdvanceStuck(t, cur, idx, input);
      assert [Step(cur, idx)] + Advance(t, cur, idx, input) == [Step(cur, idx)];
    }
  }

  lemma EndsStuckCons(t: Transitions, s: Step, rest: seq<Step>, whole: seq<Step>, input: string)
    requires EndsStuck(t, rest, input) && whole == [s] + rest
    ensures EndsStuck(t, whole, input)
  {
    assert whole[|whole| - 1] == rest[|rest| - 1];
  }

  lemma ConsIndex(s: Step, rest: seq<Step>, whole: seq<Step>, i: nat)
    requires whole == [s] + rest
    ensures |whole| == |rest| + 1 && whole[0] == s
    ensures 0 < i < |whole| ==> whole[i] == rest[i - 1]
    ensures 0 < i + 1 < |whole| ==> whole[i + 1] == rest[i]
  {
  }

  /** Each entry of the history is one greedy longest-match step after the one before it. */
  ghost predicate GreedySteps(t: Transitions, h: seq<Step>, input: string)
  {
    forall i :: 0 <= i < |h| - 1 ==> GreedyPair(t, h[i], h[i + 1], input)
  }

  /** `b` follows `a` by one greedy step: the longest fitting label is consumed. */
  ghost predicate GreedyPair(t: Transitions, a: Step, b: Step, input: string)
  {
    a.index <= |input| &&
    var m := LongestMatch(Candidates(t, a.active), input[a.index..]);
    m.Some? && b == Step(NextActive(t, a.active, m.value), a.index + |m.value|)
  }

  /**
   * Consecutive entries of the simulation history are one greedy step apart: the
   * longest label of the earlier active set that prefixes the remaining input is
   * consumed, and the later active set is the closure of the move on it.
   */
  lemma SimulationIsGreedy(t: Transitions, finals: set<string>, start: Option<string>, input: string)
    requires NonEmptyLabels(t)
    ensures GreedySteps(t, Simulation(t, finals, start, input).history, input)
  {
    if start.Some? && start.value != "" && input != "" {
      var c0 := Closure(t, {start.value});
      var h := [Step(c0, 0)] + Advance(t, c0, 0, input);
      assert Simulation(t, finals, start, input).history == h;
      forall i | 0 <= i < |h| - 1
        ensures GreedyPair(t, h[i], h[i + 1], input)
      {
        AdvanceStep(t, c0, 0, input, i);
      }
    }
  }

  /**
   * A run stops short of the end of the input only when no outgoing label of the
   * last active set prefixes the rest, and the input is accepted exactly when it
   * was consumed entirely and the last active set holds a final state.
   */
  lemma SimulationVerdict(t: Transitions, finals: set<string>, start: Option<string>, input: string)
    requires NonEmptyLabels(t)
    ensures var r := Simulation(t, finals, start, input);
      var h := r.history;
      (|h| > 0 && h[|h| - 1].index < |input| ==>
         LongestMatch(Candidates(t, h[|h| - 1].active), input[h[|h| - 1].index..]).None?) &&
      (r.accepted <==> |h| > 0 && h[|h| - 1].index == |input| && h[|h| - 1].active * finals != {})
  {
    if start.Some? && start.value != "" && input != "" {
      var c0 := Closure(t, {start.value});
      assert Simulation(t, finals, start, input).history == [Step(c0, 0)] + Advance(t, c0, 0, input);
      AdvanceStops(t, c0, 0, input);
    }
  }

  /** On empty input the verdict is whether the closure of the start meets the finals. */
  lemma EmptyInputVerdict(t: Transitions, finals: set<string>, s: string)
    requires NonEmptyLabels(t) && s != ""
    ensures Simulation(t, finals, Some(s), "").accepted <==> exists q :: q in Closure(t, {s}) && q in finals
  {
    var c0 := Closure(t, {s});
    if exists q :: q in c0 && q in finals {
      var q :| q in c0 && q in finals;
      assert q in c0 * finals;
    }
  }

  /** Every active set of the simulation history is closed under empty moves. */
  lemma SimulationClosed(t: Transitions, finals: set<string>, start: Option<string>, input: string)
    requires NonEmptyLabels(t)
    ensures var h := Simulation(t, finals, start, input).history;
      forall i :: 0 <= i < |h| ==> EpsClosed(t, h[i].active)
  {
    var h := Simulation(t, finals, start, input).history;
    SimulationIsGreedy(t, finals, start, input);
    HistoryIndices(t, finals, start, input);
    forall i | 0 <= i < |h|
      ensures EpsClosed(t, h[i].active)
    {
      if i == 0 {
        ClosureSpec(t, {start.value});
      } else {
        assert GreedyPair(t, h[i - 1], h[i], input);
        var m := LongestMatch(Candidates(t, h[i - 1].active), input[h[i - 1].index..]);
        ClosureSpec(t, Move(t, h[i - 1].active, Sym(m.value)));
      }
    }
  }

  /** The transition map of a DFA in `is_dfa`'s sense. */
  predicate IsDfaMap(t: Transitions)
  {
    forall k :: k in t ==> |t[k]| == 1 && k.1.Sym? && |k.1.text| <= 1
  }

  /** Without empty moves every set is its own closure. */
  lemma NoEpsClosure(t: Transitions, s: set<string>)
    requires forall k :: k in t ==> k.1.Sym?
    ensures Closure(t, s) == s
  {
    ClosureOfClosed(t, s);
  }

  /** In a DFA a move from at most one state reaches at most one state. */
  lemma DfaMoveSmall(t: Transitions, cur: set<string>, sym: string)
    requires IsDfaMap(t) && |cur| <= 1
    ensures |NextActive(t, cur, sym)| <= 1
  {
    var mv := Move(t, cur, Sym(sym));
    NoEpsClosure(t, mv);
    MoveSpec(t, cur, Sym(sym));
    if cur != {} {
      var q :| q in cur;
      assert cur == {q} by {
        if exists q' :: q' in cur && q' != q {
          var q' :| q' in cur && q' != q;
          CardLeq({q, q'}, cur);
        }
      }
      var k := (q, Sym(sym));
      if k in t {
        var d :| d in t[k];
        assert t[k] == {d} by {
          if exists d' :: d' in t[k] && d' != d {
            var d' :| d' in t[k] && d' != d;
            CardLeq({d, d'}, t[k]);
          }
        }
        assert mv <= {d};
        CardLeq(mv, {d});
      } else {
        assert mv == {};
      }
    } else {
      assert mv == {};
    }
  }

  /** Every entry holds at most one active state. */
  ghost predicate SinglePath(h: seq<Step>)
  {
    forall i :: 0 <= i < |h| ==> |h[i].active| <= 1
  }

  /** Greedy steps of a DFA from at most one state stay on at most one state. */
  lemma {:induction false} DfaStepsSmall(t: Transitions, h: seq<Step>, input: string, i: nat)
    requires IsDfaMap(t) && GreedySteps(t, h, input)
    requires i < |h| && |h[0].active| <= 1
    ensures |h[i].active| <= 1
  {
    if i > 0 {
      DfaStepsSmall(t, h, input, i - 1);
      DfaPairSmall(t, h[i - 1], h[i], input);
    }
  }

  lemma DfaPairSmall(t: Transitions, a: Step, b: Step, input: string)
    requires IsDfaMap(t) && GreedyPair(t, a, b, input) && |a.active| <= 1
    ensures |b.active| <= 1
  {
    var m := LongestMatch(Candidates(t, a.active), input[a.index..]);
    DfaMoveSmall(t, a.active, m.value);
  }

  /**
   * In a DFA the simulation follows a single path: every active set of the
   * history has at most one state.
   */
  lemma DfaRunIsSinglePath(t: Transitions, finals: set<string>, start: Option<string>, input: string)
    requires NonEmptyLabels(t) && IsDfaMap(t)
    ensures SinglePath(Simulation(t, finals, start, input).history)
  {
    var h := Simulation(t, finals, start, input).history;
    SimulationIsGreedy(t, finals, start, input);
    if h != [] {
      HistoryIndices(t, finals, start, input);
      NoEpsClosure(t, {start.value});
      forall i | 0 <= i < |h|
        ensures |h[i].active| <= 1
      {
        DfaStepsSmall(t, h, input, i);
      }
    }
  }

  /** Every symbol of the map is a single character. */
  ghost predicate SingleCharLabels(t: Transitions)
  {
    forall k :: k in t && k.1.Sym? ==> |k.1.text| == 1
  }

  /**
   * With single-character labels the greedy rule reads one character at a
   * time: the run from index `idx` ends at the end of the input in a final
   * state exactly when following the rest of the input character by character
   * reaches a final state.
   */
  lemma {:induction false} AdvanceCharwise(t: Transitions, finals: set<string>, cur: set<string>, idx: nat,
                                           input: string)
    requires SingleCharLabels(t) && idx <= |input|
    ensures var h := [Step(cur, idx)] + Advance(t, cur, idx, input);
      (h[|h| - 1].index == |input| && h[|h| - 1].active * finals != {}) <==>
        Follow(t, cur, Word(input[idx..])) * finals != {}
    decreases |input| - idx
  {
    var h := [Step(cur, idx)] + Advance(t, cur, idx, input);
    if idx == |input| {
      assert input[idx..] == [];
    } else {
      var rest := input[idx..];
      var c := [input[idx]];
      WordTail(rest);
      assert rest[1..] == input[idx + 1..];
      var m := LongestMatch(Candidates(t, cur), rest);
      LongestMatchIsMaximal(Candidates(t, cur), rest);
      assert c <= rest;
      if m.None? {
        AdvanceStuck(t, cur, idx, input);
        assert c !in Candidates(t, cur);
        assert Move(t, cur, Sym(c)) == {} by {
          MoveSpec(t, cur, Sym(c));
        }
        assert Move(t, {}, Eps) == {};
        FollowOfEmpty(t, Word(rest)[1..]);
      } else {
        var sym := m.value;
        var k :| k in t && k.0 in cur && k.1.Sym? && k.1.text == sym;
        assert sym == rest[..1] == c;
        var next := NextActive(t, cur, sym);
        AdvanceOn(t, cur, idx, input, sym, next, idx + 1);
        AdvanceCharwise(t, finals, next, idx + 1, input);
        var tail := [Step(next, idx + 1)] + Advance(t, next, idx + 1, input);
        assert h == [Step(cur, idx)] + tail;
        assert h[|h| - 1] == tail[|tail| - 1];
      }
    }
  }

  /**
   * With single-character labels the greedy simulation is the
   * character-by-character one: it accepts exactly when following the input
   * from the closure of the start reaches a final state.
   */
  lemma GreedyIsCharwise(t: Transitions, finals: set<string>, s: string, input: string)
    requires SingleCharLabels(t) && s != ""
    ensures Simulation(t, finals, Some(s), input).accepted <==> Follow(t, Closure(t, {s}), Word(input)) * finals != {}
  {
    var c0 := Closure(t, {s});
    AdvanceCharwise(t, finals, c0, 0, input);
    assert input[0..] == input;
    if input == "" {
      assert Word(input) == [];
    }
  }

  /**
   * `to_dfa` keeps the language of an automaton whose labels are single
   * characters: on an input whose characters are characters of the alphabet,
   * the built automaton, simulated from "q0", accepts exactly when the original
   * does, and it does so by walking from "q0" to a final state.
   */
  lemma ToDfaKeepsLanguage(t: Transitions, finals: set<string>, alphabet: set<string>, start: string,
                           b: Build, input: string)
    requires start != "" && SingleCharLabels(t)
    requires IsSubsetDfa(DfaSource(t, finals, alphabet), Closure(t, {start}), b)
    requires forall i :: 0 <= i < |input| ==> [input[i]] in Chars(alphabet) && [input[i]] != Epsilon
    ensures SingleCharLabels(b.trans)
    ensures Simulation(t, finals, Some(start), input).accepted <==>
      Simulation(b.trans, b.finals, Some("q0"), input).accepted
    ensures Simulation(t, finals, Some(start), input).accepted <==>
      (var r := Walk(b.trans, "q0", Word(input)); r.Some? && r.value in b.finals)
  {
    var src := DfaSource(t, finals, alphabet);
    var c0 := Closure(t, {start});
    var w := Word(input);
    assert TriedWord(src, w);
    assert start in c0;
    SubsetDfaAccepts(src, c0, b, w);
    SubsetRunIsFollow(src, c0, w);
    GreedyIsCharwise(t, finals, start, input);
    SubsetDfaIsDeterministic(src, c0, b);
    CharsSpec(alphabet);
    assert SingleCharLabels(b.trans);
    NoEpsClosure(b.trans, {"q0"});
    GreedyIsCharwise(b.trans, b.finals, "q0", input);
    FollowDfa(b.trans, "q0", w);
    var r := Walk(b.trans, "q0", w);
    if r.Some? {
      assert r.value in b.finals <==> r.value in {r.value} * b.finals;
    }
  }

  /** Every run of a DFA, whatever the input, follows a single path. */
  lemma AllRunsSinglePath(t: Transitions, finals: set<string>, start: Option<string>)
    ensures IsDfaMap(t) && NonEmptyLabels(t) ==> forall input :: SinglePath(Simulation(t, finals, start, input).history)
  {
    if IsDfaMap(t) && NonEmptyLabels(t) {
      forall input
        ensures SinglePath(Simulation(t, finals, start, input).history)
      {
        DfaRunIsSinglePath(t, finals, start, input);
      }
    }
  }

  /**
   * The loop of `simulate_history`: from the active set `c0`, repeatedly take the
   * longest label that prefixes the rest of the input, move on it and close under
   * empty moves, recording each step, until the input is used up, no label fits or
   * nothing is active.
   */
  method RunGreedy(t: Transitions, c0: set<string>, input: string)
    returns (history: seq<Step>, current: set<string>, idx: nat)
    requires NonEmptyLabels(t)
    ensures history == [Step(c0, 0)] + Advance(t, c0, 0, input)
    ensures history[|history| - 1] == Step(current, idx)
  {
    current, idx := c0, 0;
    history := [Step(current, 0)];
    ghost var whole := [Step(current, 0)] + Advance(t, current, 0, input);
    while idx < |input|
      invariant idx <= |input|
      invariant history != [] && history[|history| - 1] == Step(current, idx)
      invariant history + Advance(t, current, idx, input) == whole
      decreases |input| - idx
    {
      var possible := Candidates(t, current);
      var symbol := PickLongest(possible, input[idx..]);
      if symbol.None? {
        AdvanceStuck(t, current, idx, input);
        break;
      }
      var sym := symbol.value;
      var next := MoveStates(t, current, Sym(sym));
      var following := EpsilonClosure(t, next);
      var j := idx + |sym|;
      var after := history + [Step(following, j)];
      HistoryGrows(t, current, idx, input, sym, history, whole, following, j, after);
      idx, current, history := j, following, after;
      if current == {} {
        AdvanceFromNothing(t, idx, input);
        break;
      }
    }
    if idx >= |input| {
      AdvanceStuck(t, current, idx, input);
    }
  }

  class Automato {
    var states: set<string>
    var start: Option<string>
    var finals: set<string>
    var transitions: Transitions
    var alphabet: set<string>

    /** No key maps to an empty set and no symbol spells the epsilon literal. */
    ghost predicate Valid()
      reads this
    {
      NoEmptyTargets(transitions) && ProperLabels(transitions, Epsilon)
    }

    /** Everything the automaton mentions is one of its states. */
    ghost predicate Consistent()
      reads this
    {
      && finals <= states
      && (start.Some? ==> start.value in states)
      && WithinStates(transitions, states)
    }

    constructor ()
      ensures Valid() && Consistent()
      ensures states == {} && start == None && finals == {} && transitions == map[] && alphabet == {}
    {
      states, start, finals, transitions, alphabet := {}, None, {}, map[], {};
    }

    /** `add_state`: the first state added, or one marked as start, becomes the start. */
    method AddState(state: string, isStart: bool, isFinal: bool)
      modifies this
      ensures states == old(states) + {state}
      ensures start == if isStart || old(start).None? then Some(state) else old(start)
      ensures finals == if isFinal then old(finals) + {state} else old(finals)
      ensures transitions == old(transitions) && alphabet == old(alphabet)
      ensures old(Valid()) ==> Valid()
      ensures old(Consistent()) ==> Consistent()
    {
      states := states + {state};
      if isStart || start.None? {
        start := Some(state);
      }
      if isFinal {
        finals := finals + {state};
      }
    }

    /**
     * `add_transition`: both ends must be states, else `ValueError` and nothing
     * changes; the symbol joins the alphabet unless it is the empty move.
     */
    method AddTransition(src: string, symbol: string, dst: string) returns (status: Status)
      requires Valid()
      modifies this
      ensures Valid()
      ensures status == ValueError <==> src !in old(states) || dst !in old(states)
      ensures status == ValueError ==> unchanged(this)
      ensures status == Ok ==>
        && transitions == AddTarget(old(transitions), (src, ToLabel(symbol, Epsilon)), dst)
        && alphabet == (if symbol != Epsilon then old(alphabet) + {symbol} else old(alphabet))
        && states == old(states) && start == old(start) && finals == old(finals)
      ensures old(Consistent()) ==> Consistent()
    {
      if src !in states || dst !in states {
        return ValueError;
      }
      if symbol != Epsilon {
        alphabet := alphabet + {symbol};
      }
      transitions := AddTarget(transitions, (src, ToLabel(symbol, Epsilon)), dst);
      status := Ok;
    }

    /**
     * `remove_state`: an unknown state changes nothing; otherwise the state leaves
     * the states, the finals and the start, and every transition loses it.
     */
    method RemoveState(q: string)
      requires Valid()
      modifies this
      ensures Valid()
      ensures q !in old(states) ==> unchanged(this)
      ensures q in old(states) ==>
        && states == old(states) - {q}
        && start == (if old(start) == Some(q) then None else old(start))
        && finals == old(finals) - {q}
        && transitions == Purge(old(transitions), q)
        && alphabet == old(alphabet)
      ensures old(Consistent()) ==> Consistent()
    {
      if q !in states {
        return;
      }
      states := states - {q};
      if start == Some(q) {
        start := None;
      }
      finals := finals - {q};
      transitions := PurgeLoop(transitions, q);
    }

    /**
     * `rename_state`: the old name must exist and the new one must not name a
     * different state; then the old name is replaced everywhere.
     */
    method RenameState(from: string, to: string) returns (status: Status)
      requires Valid()
      modifies this
      ensures Valid()
      ensures status == ValueError <==> from !in old(states) || (to in old(states) && to != from)
      ensures status == ValueError ==> unchanged(this)
      ensures status == Ok ==>
        && states == old(states) - {from} + {to}
        && start == (if old(start) == Some(from) then Some(to) else old(start))
        && finals == (if from in old(finals) then old(finals) - {from} + {to} else old(finals))
        && alphabet == old(alphabet)
        && (RenameFree(old(transitions), from, to) ==> transitions == RenameMap(old(transitions), from, to))
      ensures status == Ok ==> RenamedSets(old(transitions), old(transitions).Keys, transitions, from, to)
      ensures old(Consistent()) && status == Ok ==> RenameFree(old(transitions), from, to) && Consistent()
    {
      if from !in states {
        return ValueError;
      }
      if to in states && to != from {
        return ValueError;
      }
      var r := RenameTransitions(transitions, from, to);
      if Consistent() {
        RenameWithinStates(transitions, states, from, to);
      }
      var newStart := if start == Some(from) then Some(to) else start;
      var newFinals := if from in finals then finals - {from} + {to} else finals;
      states, start, finals, transitions := states - {from} + {to}, newStart, newFinals, r;
      status := Ok;
    }

    /**
     * `remove_transition`: only `dst` leaves the key's set, and the key goes when
     * the set empties; every other key is untouched.
     */
    method RemoveTransition(src: string, symbol: string, dst: string)
      requires Valid()
      modifies this
      ensures Valid()
      ensures transitions == RemoveTarget(old(transitions), (src, ToLabel(symbol, Epsilon)), dst)
      ensures states == old(states) && start == old(start) && finals == old(finals) && alphabet == old(alphabet)
      ensures old(Consistent()) ==> Consistent()
    {
      transitions := RemoveTarget(transitions, (src, ToLabel(symbol, Epsilon)), dst);
    }

    /** `epsilon_closure`. */
    method EpsilonClosureOf(s: set<string>) returns (c: set<string>)
      ensures c == Closure(transitions, s)
    {
      c := EpsilonClosure(transitions, s);
    }

    /** `move`: the destinations of the `symbol`-transitions leaving `s`. */
    function MoveOn(s: set<string>, symbol: string): (r: set<string>)
      reads this
      ensures forall d :: d in r <==>
        exists q :: q in s && (q, ToLabel(symbol, Epsilon)) in transitions && d in transitions[(q, ToLabel(symbol, Epsilon))]
    {
      MoveSpec(transitions, s, ToLabel(symbol, Epsilon));
      Move(transitions, s, ToLabel(symbol, Epsilon))
    }

    /** `simulate_history`: the greedy longest-match run. */
    method SimulateHistory(input: string) returns (r: Run)
      requires Valid() && NonEmptyLabels(transitions)
      ensures r == Simulation(transitions, finals, start, input)
    {
      if start.None? || start.value == "" {
        return Run([], false);
      }
      var current := EpsilonClosure(transitions, {start.value});
      if input == "" {
        return Run([Step(current, 0)], current * finals != {});
      }
      var history, last, idx := RunGreedy(transitions, current, input);
      r := Run(history, idx == |input| && last * finals != {});
    }

    /** `simulate`: the verdict of `simulate_history`. */
    method Simulate(input: string) returns (accepted: bool)
      requires Valid() && NonEmptyLabels(transitions)
      ensures accepted == Simulation(transitions, finals, start, input).accepted
    {
      var r := SimulateHistory(input);
      accepted := r.accepted;
    }

    /** Some state lacks a transition on some single character of the alphabet. */
    ghost predicate Incomplete()
      reads this
    {
      !(KeysFor(states, Chars(alphabet), Epsilon) <= transitions.Keys)
    }

    /** `is_dfa`: one destination per key, no empty move, no label longer than one character. */
    predicate IsDfa()
      reads this
      ensures IsDfa() && NonEmptyLabels(transitions) ==>
        forall input :: SinglePath(Simulation(transitions, finals, start, input).history)
    {
      AllRunsSinglePath(transitions, finals, start);
      IsDfaMap(transitions)
    }

    /**
     * `to_dfa`: `None` without a start state; otherwise the subset construction
     * from the closure of the start, trying every single character that occurs in
     * a symbol of the alphabet. The result is deterministic in the sense of
     * `is_dfa`, and its start is "q0".
     */
    method ToDfa() returns (dfa: Automato?, ghost b: Build)
      requires Valid()
      ensures (start.None? || start.value == "") <==> dfa == null
      ensures dfa != null ==>
        && fresh(dfa)
        && IsSubsetDfa(DfaSource(transitions, finals, alphabet), Closure(transitions, {start.value}), b)
        && dfa.states == b.states && dfa.start == Some("q0") && dfa.finals == b.finals
        && dfa.alphabet == b.alphabet && dfa.transitions == b.trans
        && dfa.Valid() && dfa.Consistent() && dfa.IsDfa()
    {
      if start.None? || start.value == "" {
        return null, Start(DfaSource(transitions, finals, alphabet), {});
      }
      var c0 := EpsilonClosure(transitions, {start.value});
      var chars := CollectChars(alphabet);
      var t := transitions;
      var src := Source(t, finals, chars, Epsilon, (S, c) => NextActive(t, S, c));
      assert src == DfaSource(transitions, finals, alphabet);
      var built := Determinize(src, c0);
      SubsetDfaIsDeterministic(src, c0, built);
      CharsSpec(alphabet);
      dfa := new Automato.Of(built.states, Some("q0"), built.finals, built.trans, built.alphabet);
      b := built;
    }

    /**
     * `_make_complete`: when some state lacks a transition on some single
     * character of the alphabet, the sink state "_error" is added and every such
     * missing transition, the sink's own included, is sent to it.
     */
    method MakeComplete()
      requires Valid()
      modifies this
      ensures Valid()
      ensures var chars := Chars(old(alphabet));
        if KeysFor(old(states), chars, Epsilon) <= old(transitions).Keys then unchanged(this)
        else
          var keys := KeysFor(old(states) + {ErrorState}, chars, Epsilon);
          && states == old(states) + {ErrorState}
          && start == (if old(start).None? then Some(ErrorState) else old(start))
          && finals == old(finals)
          && transitions == FillMissing(old(transitions), keys, ErrorState)
          && alphabet == old(alphabet) + AddedLabels(old(transitions), keys)
      ensures old(Consistent()) ==> Consistent()
    {
      var chars := CollectChars(alphabet);
      var found := FindMissing(transitions, states, chars, Epsilon);
      if found {
        AddState(ErrorState, false, false);
        var keys := KeysFor(states, chars, Epsilon);
        KeysForProper(states, chars, Epsilon);
        FillMissingKeeps(transitions, keys, ErrorState, states);
        var t', alphabet' := FillLoop(transitions, alphabet, states, chars, Epsilon, ErrorState);
        transitions, alphabet := t', alphabet';
      }
    }

    /**
     * The first part of `minimize`: completion, then the refinement of the
     * states of the completed automaton into blocks. Only the sink's own keys
     * and the keys sent to it are new, so purging the sink gives what purging
     * the original gives.
     */
    method CompleteAndSplit() returns (blocks: seq<set<string>>)
      requires Valid() && IsDfa()
      modifies this
      ensures Valid() && SingleTargets(transitions)
      ensures !old(Incomplete()) ==> unchanged(this)
      ensures old(Incomplete()) ==>
        && states == old(states) + {ErrorState}
        && start == (if old(start).None? then Some(ErrorState) else old(start))
      ensures finals == old(finals) && old(alphabet) <= alphabet
      ensures states - {ErrorState} == old(states) - {ErrorState}
      ensures Purge(transitions, ErrorState) == Purge(old(transitions), ErrorState)
      ensures old(Consistent()) ==> Consistent()
      ensures Partition(blocks, states + finals) && Respects(blocks, finals)
      ensures Completion(old(transitions), old(states), old(alphabet), transitions, states, alphabet)
      ensures (finals <= states && SingleTargets(transitions) && WithinStates(transitions, states)
               && Uniform(transitions, states, alphabet, Epsilon)) ==> Congruent(blocks, transitions, alphabet, Epsilon)
    {
      ghost var t0 := transitions;
      ghost var keys := KeysFor(states + {ErrorState}, Chars(alphabet), Epsilon);
      MakeComplete();
      FillMissingKeeps(t0, keys, ErrorState, states);
      PurgeFilled(t0, keys, ErrorState);
      blocks := Refinement(states, finals, transitions, alphabet, Epsilon);
    }

    /**
     * The second part of `minimize`: when "_error" is a state it is removed, and
     * with it from the blocks; blocks left empty are dropped.
     */
    method DropSink(blocks: seq<set<string>>) returns (p: seq<set<string>>)
      requires Valid() && SingleTargets(transitions) && IsDfaMap(Purge(transitions, ErrorState))
      requires ErrorState !in states ==> IsDfaMap(transitions)
      requires Partition(blocks, states + finals) && Respects(blocks, finals)
      modifies this
      ensures Valid() && IsDfa()
      ensures states == old(states) - {ErrorState}
      ensures ErrorState in old(states) ==>
        && start == (if old(start) == Some(ErrorState) then None else old(start))
        && finals == old(finals) - {ErrorState}
        && transitions == Purge(old(transitions), ErrorState)
      ensures ErrorState !in old(states) ==> unchanged(this)
      ensures alphabet == old(alphabet)
      ensures old(Consistent()) ==> Consistent()
      ensures (forall i :: 0 <= i < |p| ==> p[i] != {}) && Partition(p, states + finals) && Respects(p, finals)
      ensures SameBlocksOff(p, blocks, ErrorState)
    {
      var b := blocks;
      if ErrorState in states {
        ghost var fin1 := finals;
        FilteredSpec(b, {ErrorState}, fin1);
        FilteredSameBlocksOff(b, {ErrorState}, ErrorState);
        RemoveState(ErrorState);
        b := Filtered(b, {ErrorState});
        RespectsDrop(b, fin1, ErrorState);
      } else {
        FilteredSameBlocksOff(b, {}, ErrorState);
      }
      FilteredSpec(b, {}, finals);
      p := Filtered(b, {});
    }

    /**
     * The part of `minimize` that changes the automaton itself: completion, the
     * refinement of its states into blocks, and the removal of the sink (and so
     * of any state named "_error") from the automaton and from the blocks.
     */
    method CompleteAndRefine() returns (p: seq<set<string>>, ghost completed: Transitions,
                                        ghost cstates: set<string>, ghost stable: seq<set<string>>)
      requires Valid() && IsDfa()
      modifies this
      ensures Valid() && IsDfa()
      ensures states == old(states) - {ErrorState}
      ensures ErrorState in old(states) || old(Incomplete()) ==>
        && start == (if old(start) == Some(ErrorState) then None else old(start))
        && finals == old(finals) - {ErrorState}
        && transitions == Purge(old(transitions), ErrorState)
      ensures ErrorState !in old(states) && !old(Incomplete()) ==>
        start == old(start) && finals == old(finals) && transitions == old(transitions)
      ensures old(alphabet) <= alphabet
      ensures old(Consistent()) ==> Consistent()
      ensures (forall i :: 0 <= i < |p| ==> p[i] != {}) && Partition(p, states + finals) && Respects(p, finals)
      ensures old(Consistent()) && ErrorState !in old(states) ==>
        states == old(states) && start == old(start) && finals == old(finals) && transitions == old(transitions)
      ensures SameBlocksOff(p, stable, ErrorState)
      ensures old(Consistent()) && ErrorState !in old(states) && NonEmptyLabels(old(transitions)) ==>
        && StableSetting(completed, cstates, old(finals), stable, alphabet, Epsilon, ErrorState)
        && cstates - {ErrorState} == old(states) && Purge(completed, ErrorState) == old(transitions)
    {
      ghost var t0, states0, start0, finals0, a0 := transitions, states, start, finals, alphabet;
      ghost var inc := Incomplete();
      ghost var kept := Consistent() && ErrorState !in states0;
      var blocks := CompleteAndSplit();
      completed, cstates, stable := transitions, states, blocks;
      assert kept && NonEmptyLabels(t0) ==>
        && StableSetting(completed, cstates, finals0, stable, alphabet, Epsilon, ErrorState)
        && cstates - {ErrorState} == states0 && Purge(completed, ErrorState) == t0 by {
        if kept && NonEmptyLabels(t0) {
          CompletedSetting(t0, states0, finals0, a0, completed, cstates, alphabet, stable);
        }
      }
      ghost var st1 := start;
      PurgeKeepsDfa(t0, ErrorState);
      assert kept ==> Purge(t0, ErrorState) == t0 by {
        if kept {
          PurgeAbsent(t0, ErrorState, states0);
        }
      }
      p := DropSink(blocks);
      assert ErrorState in cstates ==> start == (if st1 == Some(ErrorState) then None else st1);
      assert kept ==> states == states0 && finals == finals0 by {
        if kept {
          RemoveAbsent(states0, ErrorState);
          RemoveAbsent(finals0, ErrorState);
        }
      }
    }

    /**
     * `minimize`: `ValueError` unless the automaton passes `is_dfa`. Otherwise it
     * is completed and refined, loses the sink, and the result is the quotient
     * over the named blocks: a well-formed automaton that passes `is_dfa`.
     */
    method Minimize() returns (status: Status, result: Automato?, ghost blocks: seq<set<string>>,
                               ghost smap: map<string, string>)
      requires Valid()
      modifies this
      ensures Valid()
      ensures status == ValueError <==> !old(IsDfa())
      ensures status == ValueError ==> unchanged(this) && result == null
      ensures status == Ok ==>
        && result != null && fresh(result)
        && states == old(states) - {ErrorState}
        && (if ErrorState in old(states) || old(Incomplete()) then
              && start == (if old(start) == Some(ErrorState) then None else old(start))
              && finals == old(finals) - {ErrorState}
              && transitions == Purge(old(transitions), ErrorState)
            else start == old(start) && finals == old(finals) && transitions == old(transitions))
        && old(alphabet) <= alphabet
        && (forall i :: 0 <= i < |blocks| ==> blocks[i] != {})
        && Partition(blocks, states + finals) && Respects(blocks, finals)
        && IsQuotient(blocks, start, finals, transitions, smap,
                      result.states, result.start, result.finals, result.transitions, result.alphabet)
        && result.Valid() && result.Consistent() && result.IsDfa()
        && (old(Consistent()) ==> |result.states| <= |old(states)|)
        && (old(Consistent()) && ErrorState !in old(states) ==>
              states == old(states) && start == old(start) && finals == old(finals) && transitions == old(transitions))
      ensures status == Ok && old(Consistent()) && ErrorState !in old(states) && PlainNames(old(states))
              && NonEmptyLabels(old(transitions)) ==>
        && smap.Keys == old(states)
        && KeepsLanguage(old(transitions), old(finals), result.transitions, result.finals, smap, alphabet, Epsilon)
        && (old(start).Some? ==> result.start == Some(smap[old(start).value]))
    {
      if !IsDfa() {
        return ValueError, null, [], map[];
      }
      ghost var t0, s0, f0, start0, a0 := transitions, states, finals, start, alphabet;
      ghost var language := Consistent() && ErrorState !in s0 && PlainNames(s0) && NonEmptyLabels(t0);
      var p, completed, cstates, stable := CompleteAndRefine();
      var st, fi, tr := start, finals, transitions;
      var r, sm := NewQuotient(p, st, fi, tr);
      ghost var names, qstart, qfinals, q, alph := r.states, r.start, r.finals, r.transitions, r.alphabet;
      assert old(Consistent()) ==> |names| <= |s0| by {
        if old(Consistent()) {
          QuotientNoLarger(p, s0);
        }
      }
      assert language ==>
        && sm.Keys == s0 && KeepsLanguage(t0, f0, q, qfinals, sm, alphabet, Epsilon)
        && (start0.Some? ==> qstart == Some(sm[start0.value])) by {
        if language {
          AbsorbSubset(s0, f0);
          Minimized(completed, cstates, f0, stable, alphabet, Epsilon, ErrorState, p, st, sm,
                    names, qstart, qfinals, q, alph);
        }
      }
      status, result, blocks, smap := Ok, r, p, sm;
    }

    /** An automaton with the given parts, as the editor builds one state and transition at a time. */
    constructor Of(states: set<string>, start: Option<string>, finals: set<string>, transitions: Transitions,
                   alphabet: set<string>)
      ensures this.states == states && this.start == start && this.finals == finals
      ensures this.transitions == transitions && this.alphabet == alphabet
    {
      this.states, this.start, this.finals := states, start, finals;
      this.transitions, this.alphabet := transitions, alphabet;
    }

    /**
     * The new automaton of `minimize`: one state per named block, start and
     * finals carried over to their blocks, transitions joined block to block.
     */
    static method NewQuotient(p: seq<set<string>>, st: Option<string>, fi: set<string>, tr: Transitions)
      returns (r: Automato, ghost smap: map<string, string>)
      requires Disjoint(p) && (forall i :: 0 <= i < |p| ==> p[i] != {})
      requires IsDfaMap(tr) && ProperLabels(tr, Epsilon)
      ensures fresh(r)
      ensures IsQuotient(p, st, fi, tr, smap, r.states, r.start, r.finals, r.transitions, r.alphabet)
      ensures r.Valid() && r.Consistent() && r.IsDfa()
    {
      var names, qstart, qfinals, q, alph, sm := BuildQuotient(p, st, fi, tr);
      QuotientKeepsDfa(tr, q);
      r := new Automato.Of(names, qstart, qfinals, q, alph);
      smap := sm;
    }

    /** `to_json`: the saved record, one entry per transition key. */
    function ToJson(): (rec: Record)
      reads this
      ensures rec.states == states && rec.start == start && rec.finals == finals && rec.alphabet == alphabet
      ensures Valid() ==> TransitionsOf(rec.transitions, Epsilon) == transitions
    {
      AllEntriesLoad(transitions);
      Record(states, start, finals, alphabet, EntriesOf(transitions, Epsilon))
    }

    /** `from_json`: the sets are taken as saved and every entry's destinations are added. */
    constructor FromJson(rec: Record)
      ensures Valid()
      ensures states == rec.states && start == rec.start && finals == rec.finals && alphabet == rec.alphabet
      ensures transitions == TransitionsOf(rec.transitions, Epsilon)
    {
      var loaded := LoadTransitions(rec.transitions, Epsilon);
      states := rec.states;
      start := rec.start;
      finals := rec.finals;
      alphabet := rec.alphabet;
      transitions := loaded;
    }
  }

  /** A single character of the alphabet after completion is a character of the alphabet before it. */
  lemma SingleInChars(t0: Transitions, sts: set<string>, a0: set<string>, c: string)
    requires c in a0 + AddedLabels(t0, KeysFor(sts, Chars(a0), Epsilon))
    ensures |c| == 1 ==> c in Chars(a0)
  {
    CharsSpec(a0);
    if c in a0 {
      if |c| == 1 {
        assert c == [c[0]];
      }
    } else {
      var k :| k in KeysFor(sts, Chars(a0), Epsilon) && k !in t0 && k.1.Sym? && k.1.text == c;
      var s, ch :| s in sts && ch in Chars(a0) && k == (s, ToLabel(ch, Epsilon));
    }
  }

  /**
   * Completion of a map that passes `is_dfa` treats all states alike on every
   * symbol of the new alphabet: each single character has a key everywhere,
   * and any longer or empty symbol has none.
   */
  lemma CompletedUniform(t0: Transitions, sts: set<string>, a0: set<string>, e: string)
    requires IsDfaMap(t0) && NonEmptyLabels(t0)
    ensures var keys := KeysFor(sts, Chars(a0), Epsilon);
      Uniform(FillMissing(t0, keys, e), sts, a0 + AddedLabels(t0, keys), Epsilon)
  {
    var keys := KeysFor(sts, Chars(a0), Epsilon);
    var t := FillMissing(t0, keys, e);
    var a := a0 + AddedLabels(t0, keys);
    CharsSpec(a0);
    FillMissingSpec(t0, keys, e);
    forall c, k | c in a && c !in Chars(a0) && k in t
      ensures k.1 != ToLabel(c, Epsilon)
    {
      SingleInChars(t0, sts, a0, c);
      assert ToLabel(c, Epsilon) == Sym(c);
      if k !in t0 {
        var s, ch :| s in sts && ch in Chars(a0) && k == (s, ToLabel(ch, Epsilon));
      }
    }
    CompleteIsUniform(t, sts, a, Chars(a0), Epsilon);
  }

  /**
   * What `_make_complete` does to the transitions `t0`, states `s0` and
   * alphabet `a0`: nothing when every state has a key on every single
   * character of the alphabet; otherwise it adds "_error", sends every missing
   * key of every state (the sink's own included) to it, and adds the symbols of
   * the new keys to the alphabet.
   */
  ghost predicate Completion(t0: Transitions, s0: set<string>, a0: set<string>, t: Transitions, s: set<string>,
                             a: set<string>)
  {
    if KeysFor(s0, Chars(a0), Epsilon) <= t0.Keys then t == t0 && s == s0 && a == a0
    else
      var keys := KeysFor(s0 + {ErrorState}, Chars(a0), Epsilon);
      t == FillMissing(t0, keys, ErrorState) && s == s0 + {ErrorState} && a == a0 + AddedLabels(t0, keys)
  }

  /**
   * The completed map of a consistent automaton that passes `is_dfa` and has
   * no state "_error", with the blocks of its refinement, is what the language
   * argument of `minimize` starts from; purging the sink gives back the
   * original map.
   */
  lemma CompletedSetting(t0: Transitions, s0: set<string>, f0: set<string>, a0: set<string>, t: Transitions,
                         s: set<string>, a: set<string>, blocks: seq<set<string>>)
    requires IsDfaMap(t0) && NonEmptyLabels(t0) && NoEmptyTargets(t0) && WithinStates(t0, s0)
    requires f0 <= s0 && ErrorState !in s0
    requires Completion(t0, s0, a0, t, s, a)
    requires Partition(blocks, s + f0) && Respects(blocks, f0)
    requires f0 <= s && SingleTargets(t) && WithinStates(t, s) && Uniform(t, s, a, Epsilon) ==>
      Congruent(blocks, t, a, Epsilon)
    ensures StableSetting(t, s, f0, blocks, a, Epsilon, ErrorState)
    ensures s - {ErrorState} == s0 && Purge(t, ErrorState) == t0
  {
    CompletionStable(t0, s0, a0, t, s, a);
    CompletedShape(t0, s0, a0, t, s, a);
    assert s + f0 == s;
  }

  /** Completion keeps one destination per key and the states, and purging the sink undoes it. */
  lemma CompletedShape(t0: Transitions, s0: set<string>, a0: set<string>, t: Transitions, s: set<string>,
                       a: set<string>)
    requires IsDfaMap(t0) && NoEmptyTargets(t0) && WithinStates(t0, s0) && ErrorState !in s0
    requires Completion(t0, s0, a0, t, s, a)
    ensures SingleTargets(t) && WithinStates(t, s) && Purge(t, ErrorState) == t0
    ensures s0 <= s && s - {ErrorState} == s0
  {
    CompletedStates(t0, s0, a0, t, s, a);
    if KeysFor(s0, Chars(a0), Epsilon) <= t0.Keys {
      PurgeAbsent(t0, ErrorState, s0);
    } else {
      FilledShape(t0, s0, Chars(a0), Epsilon, ErrorState);
    }
  }

  /** Completion adds at most the sink to the states. */
  lemma CompletedStates(t0: Transitions, s0: set<string>, a0: set<string>, t: Transitions, s: set<string>,
                        a: set<string>)
    requires ErrorState !in s0 && Completion(t0, s0, a0, t, s, a)
    ensures s0 <= s && s - {ErrorState} == s0
  {
    if KeysFor(s0, Chars(a0), Epsilon) <= t0.Keys {
      RemoveAbsent(s0, ErrorState);
    } else {
      AddRemove(s0, ErrorState);
    }
  }

  /**
   * Whether or not `_make_complete` had work to do, a map that passed `is_dfa`
   * treats all states alike on every symbol afterwards, and "_error" is a sink.
   */
  lemma CompletionStable(t0: Transitions, s0: set<string>, a0: set<string>, t: Transitions, sts: set<string>,
                         a: set<string>)
    requires IsDfaMap(t0) && NonEmptyLabels(t0) && WithinStates(t0, s0) && ErrorState !in s0
    requires Completion(t0, s0, a0, t, sts, a)
    ensures Uniform(t, sts, a, Epsilon) && Sink(t, ErrorState, a, Epsilon)
  {
    CompletedUniform(t0, sts, a0, ErrorState);
    if KeysFor(s0, Chars(a0), Epsilon) <= t0.Keys {
      var k0 := KeysFor(s0, Chars(a0), Epsilon);
      FillNothingMissing(t0, k0, ErrorState);
      assert AddedLabels(t0, k0) == {};
      SinkAbsent(t0, s0, ErrorState, a, Epsilon);
    } else {
      FilledSink(t0, s0, KeysFor(s0 + {ErrorState}, Chars(a0), Epsilon), ErrorState, a, Epsilon);
    }
  }

  lemma PurgeKeepsDfa(t: Transitions, q: string)
    requires IsDfaMap(t)
    ensures IsDfaMap(Purge(t, q))
  {
    PurgeKeepsSingle(t, q);
  }

  /** A map whose labels all come from a deterministic, properly labelled map is one as well. */
  lemma QuotientKeepsDfa(t: Transitions, q: Transitions)
    requires IsDfaMap(t) && ProperLabels(t, Epsilon)
    requires SingleTargets(q) && forall k :: k in q ==> exists s :: (s, k.1) in t
    ensures IsDfaMap(q) && ProperLabels(q, Epsilon)
  {
    forall k | k in q
      ensures k.1.Sym? && |k.1.text| <= 1 && ProperLabel(k.1, Epsilon)
    {
      var s :| (s, k.1) in t;
    }
  }

  /** The single characters occurring in the symbols of `alphabet`. */
  function Chars(alphabet: set<string>): set<string>
  {
    set s, i | s in alphabet && 0 <= i < |s| :: [s[i]]
  }

  /** A member of `Chars` is one character of some symbol, and every such character is a member. */
  lemma CharsSpec(alphabet: set<string>)
    ensures forall c :: c in Chars(alphabet) ==> |c| == 1 && exists s :: s in alphabet && c[0] in s
    ensures forall s, i :: s in alphabet && 0 <= i < |s| ==> [s[i]] in Chars(alphabet)
  {
  }

  /** The loop of `to_dfa` and `_make_complete` that collects the characters of the alphabet. */
  method CollectChars(alphabet: set<string>) returns (r: set<string>)
    ensures r == Chars(alphabet)
  {
    r := {};
    var todo := alphabet;
    while todo != {}
      invariant todo <= alphabet
      invariant r == Chars(alphabet - todo)
      decreases todo
    {
      var sym :| sym in todo;
      var i := 0;
      while i < |sym|
        invariant 0 <= i <= |sym|
        invariant r == Chars(alphabet - todo) + set j | 0 <= j < i :: [sym[j]]
      {
        r := r + {[sym[i]]};
        i := i + 1;
      }
      assert Chars(alphabet - (todo - {sym})) == Chars(alphabet - todo) + set j | 0 <= j < |sym| :: [sym[j]];
      todo := todo - {sym};
    }
  }

  /** What `to_dfa` converts: the transitions and finals, trying the characters of the alphabet. */
  function DfaSource(t: Transitions, finals: set<string>, alphabet: set<string>): Source
  {
    Source(t, finals, Chars(alphabet), Epsilon, (S, c) => NextActive(t, S, c))
  }

  /** The transition rebuilding of `rename_state`, keeping the map well formed. */
  method RenameTransitions(t: Transitions, from: string, to: string) returns (r: Transitions)
    requires NoEmptyTargets(t) && ProperLabels(t, Epsilon)
    ensures NoEmptyTargets(r) && ProperLabels(r, Epsilon)
    ensures RenamedSets(t, t.Keys, r, from, to)
    ensures RenameFree(t, from, to) ==> r == RenameMap(t, from, to)
  {
    r := RenameLoop(t, from, to);
    RenameKeepsValid(t, r, from, to);
  }

  lemma RenameKeepsValid(t: Transitions, r: Transitions, from: string, to: string)
    requires NoEmptyTargets(t) && ProperLabels(t, Epsilon)
    requires RenamedSets(t, t.Keys, r, from, to)
    ensures NoEmptyTargets(r) && ProperLabels(r, Epsilon)
  {
    forall j | j in r
      ensures r[j] != {} && ProperLabel(j.1, Epsilon)
    {
      var k :| k in t.Keys && k in t && RenameKey(k, from, to) == j && r[j] == RenameSet(t[k], from, to);
      var x :| x in t[k];
      assert RenameIn(x, from, to) in r[j];
    }
  }

  /** Loading the entries saved from a well-formed map gives the map back. */
  lemma AllEntriesLoad(t: Transitions)
    ensures NoEmptyTargets(t) && ProperLabels(t, Epsilon) ==> TransitionsOf(EntriesOf(t, Epsilon), Epsilon) == t
  {
    if NoEmptyTargets(t) && ProperLabels(t, Epsilon) {
      TransitionsRoundTrip(t, Epsilon);
    }
  }
}
