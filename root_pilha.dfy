/**
 * The older pushdown-automaton engine, behind the first editor. A configuration
 * is a state, the rest of the input still to read and a stack (top last); a
 * push string goes on reversed, so its first character ends on top. The
 * simulation reads one input character per round: from the configurations of
 * the round it fires the rules for that character, then closes the result
 * under the empty moves. A round that leaves nothing ends the run with a stuck
 * entry. The closures have no bound of their own, so here each runs within a
 * budget of steps.
 */
module RootPilha {
  import opened Symbols
  import opened PdaSpec

  /** Configurations of this engine: the position is the part of the input not yet read. */
  type Conf = Config<string>

  /** What `simulate_history` returns. */
  datatype Run = Run(history: seq<Conf>, accepted: bool)

  /** The stack symbol a run starts with; this engine never changes it. */
  const StartStack: string := "Z"

  /**
   * The rules for input character `symbol` fired from `c`: only when the rest
   * of the input starts with that character, which is then dropped.
   */
  function MoveOne(t: Rules, c: Conf, symbol: char): set<Conf>
  {
    if c.pos != [] && c.pos[0] == symbol then Fire(t, c, ToLabel([symbol], Epsilon), c.pos[1..], true) else {}
  }

  /** The rules for `symbol` fired from each of `configs`. */
  function Moved(t: Rules, configs: set<Conf>, symbol: char): set<Conf>
  {
    set c, e | c in configs && e in MoveOne(t, c, symbol) :: e
  }

  /** `_move_with_symbol`: for each configuration, the rules for `symbol` that pop nothing and those that pop its top. */
  method MoveWithSymbol(t: Rules, configs: set<Conf>, symbol: char) returns (r: set<Conf>)
    ensures r == Moved(t, configs, symbol)
  {
    r := {};
    var todo := configs;
    while todo != {}
      invariant todo <= configs
      invariant r == Moved(t, configs - todo, symbol)
      decreases todo
    {
      var c :| c in todo;
      r := r + MoveOne(t, c, symbol);
      todo := todo - {c};
    }
  }

  /**
   * Every configuration `_move_with_symbol` reaches comes from one whose rest
   * of the input starts with `symbol`, and has exactly that character less to read.
   */
  lemma MoveDropsOne(t: Rules, configs: set<Conf>, symbol: char, e: Conf)
    requires e in Moved(t, configs, symbol)
    ensures exists c :: c in configs && c.pos != [] && c.pos[0] == symbol && e.pos == c.pos[1..]
  {
    var c: Conf :| c in configs && e in MoveOne(t, c, symbol);
    FireSpec(t, c, ToLabel([symbol], Epsilon), c.pos[1..], true, e);
  }

  /** The input move of `c`: the rules for the next input character, which it reads. */
  function CharMoves(t: Rules, c: Conf): set<Conf>
  {
    if c.pos == [] then {} else Fire(t, c, ToLabel([c.pos[0]], Epsilon), c.pos[1..], true)
  }

  /** The input moves as a step function. */
  function CharOf(t: Rules): Conf -> set<Conf>
  {
    c => CharMoves(t, c)
  }

  /** Every step a run may take: the empty moves and the move reading the next character. */
  function Moves(t: Rules): Conf -> set<Conf>
  {
    c => EpsMoves(t, c, true) + CharMoves(t, c)
  }

  /**
   * The acceptance the simulation decides: some configuration reachable from
   * the initial one has read the whole input and is in a final state.
   */
  ghost predicate Accepts(t: Rules, finals: set<string>, init: Conf)
  {
    exists c :: Reachable(Moves(t), {init}, c) && c.pos == [] && c.state in finals
  }

  /** No reachable configuration has `rest` left to read. */
  ghost predicate Stuck(t: Rules, init: Conf, rest: string)
  {
    forall c :: Reachable(Moves(t), {init}, c) ==> c.pos != rest
  }

  /** An empty move is a step of a run. */
  lemma EpsWithinMoves(t: Rules)
    ensures Within(EpsOf(t, true), Moves(t))
  {
    forall c: Conf
      ensures EpsOf(t, true)(c) <= Moves(t)(c)
    {
    }
  }

  /**
   * When every configuration has the rest of the input from index `i` on, the
   * move `simulate_history` makes with the i-th character is the input move.
   */
  lemma MovedIsImage(t: Rules, configs: set<Conf>, input: string, i: nat)
    requires i < |input| && forall c :: c in configs ==> c.pos == input[i..]
    ensures Moved(t, configs, input[i]) == Image(CharOf(t), configs)
  {
    forall c | c in configs
      ensures MoveOne(t, c, input[i]) == CharOf(t)(c)
    {
      assert c.pos[0] == input[i];
    }
  }

  /**
   * The configuration sets of the rounds so far, one per input index: the first
   * holds the initial configuration, each holds configurations with the rest of
   * the input from its index on, each is closed under the empty moves, and the
   * input moves from each land in the next.
   */
  ghost predicate Layered(t: Rules, input: string, init: Conf, ls: seq<set<Conf>>)
  {
    && 0 < |ls| <= |input| + 1
    && init in ls[0]
    && (forall j, c :: 0 <= j < |ls| && c in ls[j] ==> c.pos == input[j..])
    && (forall j :: 0 <= j < |ls| ==> ClosedUnder(EpsOf(t, true), ls[j]))
    && (forall j :: 0 <= j < |ls| - 1 ==> Image(CharOf(t), ls[j]) <= ls[j + 1])
  }

  /** Everything in the rounds' sets is reachable. */
  ghost predicate AllReached(t: Rules, init: Conf, ls: seq<set<Conf>>)
  {
    forall j, c :: 0 <= j < |ls| && c in ls[j] ==> Reachable(Moves(t), {init}, c)
  }

  /** The first round: the empty-move closure of the initial configuration. */
  lemma FirstLayer(t: Rules, input: string, init: Conf, cl: set<Conf>)
    requires init.pos == input && IsClosureOf(EpsOf(t, true), {init}, cl)
    ensures Layered(t, input, init, [cl]) && AllReached(t, init, [cl])
  {
    EpsWithinMoves(t);
    ReachStart(Moves(t), {init}, init);
    forall c | c in cl
      ensures c.pos == input && Reachable(Moves(t), {init}, c)
    {
      EpsClosurePos(t, true, {init}, cl, input, c);
      ReachedFrom(EpsOf(t, true), Moves(t), {init}, {init}, c);
    }
  }

  /** A further round: the closure of the input moves from the last set. */
  lemma NextLayer(t: Rules, input: string, init: Conf, ls: seq<set<Conf>>, next: set<Conf>, cl: set<Conf>)
    requires Layered(t, input, init, ls) && AllReached(t, init, ls) && |ls| <= |input|
    requires next == Image(CharOf(t), ls[|ls| - 1]) && IsClosureOf(EpsOf(t, true), next, cl)
    ensures Layered(t, input, init, ls + [cl]) && AllReached(t, init, ls + [cl])
  {
    var i := |ls| - 1;
    NextPositions(t, input, ls[i], i, next);
    NextReached(t, init, ls[i], next);
    EpsWithinMoves(t);
    forall c | c in cl
      ensures c.pos == input[i + 1..] && Reachable(Moves(t), {init}, c)
    {
      EpsClosurePos(t, true, next, cl, input[i + 1..], c);
      ReachedFrom(EpsOf(t, true), Moves(t), {init}, next, c);
    }
    Extend(t, input, init, ls, cl);
  }

  /** The input moves from configurations with the rest from index `i` on leave the rest from `i + 1` on. */
  lemma NextPositions(t: Rules, input: string, x: set<Conf>, i: nat, next: set<Conf>)
    requires i < |input| && (forall c :: c in x ==> c.pos == input[i..]) && next == Image(CharOf(t), x)
    ensures forall e :: e in next ==> e.pos == input[i + 1..]
  {
    forall e | e in next
      ensures e.pos == input[i + 1..]
    {
      var c :| c in x && e in CharOf(t)(c);
      FireSpec(t, c, ToLabel([c.pos[0]], Epsilon), c.pos[1..], true, e);
    }
  }

  /** The input moves from reachable configurations are reachable. */
  lemma NextReached(t: Rules, init: Conf, x: set<Conf>, next: set<Conf>)
    requires (forall c :: c in x ==> Reachable(Moves(t), {init}, c)) && next == Image(CharOf(t), x)
    ensures forall e :: e in next ==> Reachable(Moves(t), {init}, e)
  {
    forall e | e in next
      ensures Reachable(Moves(t), {init}, e)
    {
      var c :| c in x && e in CharOf(t)(c);
      ReachStep(Moves(t), {init}, c, e);
    }
  }

  /** A set of the next index that is closed and takes the input moves from the last set extends the rounds. */
  lemma Extend(t: Rules, input: string, init: Conf, ls: seq<set<Conf>>, cl: set<Conf>)
    requires Layered(t, input, init, ls) && AllReached(t, init, ls) && |ls| <= |input|
    requires forall c :: c in cl ==> c.pos == input[|ls|..] && Reachable(Moves(t), {init}, c)
    requires ClosedUnder(EpsOf(t, true), cl) && Image(CharOf(t), ls[|ls| - 1]) <= cl
    ensures Layered(t, input, init, ls + [cl]) && AllReached(t, init, ls + [cl])
  {
    var ls' := ls + [cl];
    forall j, c: Conf | 0 <= j < |ls'| && c in ls'[j]
      ensures c.pos == input[j..] && Reachable(Moves(t), {init}, c)
    {
      if j < |ls| {
        assert ls'[j] == ls[j];
      }
    }
    forall j | 0 <= j < |ls'|
      ensures ClosedUnder(EpsOf(t, true), ls'[j])
    {
      if j < |ls| {
        assert ls'[j] == ls[j];
      }
    }
    forall j | 0 <= j < |ls'| - 1
      ensures Image(CharOf(t), ls'[j]) <= ls'[j + 1]
    {
      assert ls'[j] == ls[j];
    }
  }

  /**
   * With a set for every index, the sets hold everything a run reaches in `n`
   * steps, each in the set of the index up to which it has read.
   */
  lemma {:induction false} LayersComplete(t: Rules, input: string, init: Conf, ls: seq<set<Conf>>, n: nat)
    requires Layered(t, input, init, ls) && |ls| == |input| + 1 && init.pos == input
    ensures forall c :: c in Layer(Moves(t), {init}, n) ==> |c.pos| <= |input| && c in ls[|input| - |c.pos|]
  {
    if n > 0 {
      LayersComplete(t, input, init, ls, n - 1);
      forall d | d in Image(Moves(t), Layer(Moves(t), {init}, n - 1))
        ensures |d.pos| <= |input| && d in ls[|input| - |d.pos|]
      {
        var c :| c in Layer(Moves(t), {init}, n - 1) && d in Moves(t)(c);
        StepInLayers(t, input, init, ls, c, d);
      }
    }
  }

  /** A step from a configuration in the set of its index lands in the set of its own index. */
  lemma StepInLayers(t: Rules, input: string, init: Conf, ls: seq<set<Conf>>, c: Conf, d: Conf)
    requires Layered(t, input, init, ls) && |ls| == |input| + 1
    requires |c.pos| <= |input| && c in ls[|input| - |c.pos|] && d in Moves(t)(c)
    ensures |d.pos| <= |input| && d in ls[|input| - |d.pos|]
  {
    var j := |input| - |c.pos|;
    if d in EpsMoves(t, c, true) {
      EpsStep(t, ls[j], c, d);
    } else {
      CharStep(t, ls[j], c, d);
      assert c.pos == input[j..];
      assert Image(CharOf(t), ls[j]) <= ls[j + 1];
    }
  }

  /** An empty move from a closed set stays in it, at the same position. */
  lemma EpsStep(t: Rules, x: set<Conf>, c: Conf, d: Conf)
    requires ClosedUnder(EpsOf(t, true), x) && c in x && d in EpsMoves(t, c, true)
    ensures d in x && d.pos == c.pos
  {
    FireSpec(t, c, Eps, c.pos, true, d);
    assert d in EpsOf(t, true)(c);
  }

  /** An input move from a set reads one character and lands in the set's input moves. */
  lemma CharStep(t: Rules, x: set<Conf>, c: Conf, d: Conf)
    requires c in x && d in CharMoves(t, c)
    ensures c.pos != [] && d.pos == c.pos[1..] && d in Image(CharOf(t), x)
  {
    FireSpec(t, c, ToLabel([c.pos[0]], Epsilon), c.pos[1..], true, d);
    assert d in CharOf(t)(c);
  }

  /** With a set for every index, everything reachable is in the set of the index up to which it has read. */
  lemma Complete(t: Rules, input: string, init: Conf, ls: seq<set<Conf>>, c: Conf)
    requires Layered(t, input, init, ls) && |ls| == |input| + 1 && init.pos == input
    requires Reachable(Moves(t), {init}, c)
    ensures |c.pos| <= |input| && c in ls[|input| - |c.pos|]
  {
    var n: nat :| c in Layer(Moves(t), {init}, n);
    LayersComplete(t, input, init, ls, n);
  }

  /** A round with no input move to make: empty sets for the indices beyond it keep the rounds layered. */
  lemma Pad(t: Rules, input: string, init: Conf, ls: seq<set<Conf>>) returns (ls': seq<set<Conf>>)
    requires Layered(t, input, init, ls) && Image(CharOf(t), ls[|ls| - 1]) == {}
    ensures Layered(t, input, init, ls') && |ls'| == |input| + 1
    ensures forall j :: 0 <= j < |ls| ==> ls'[j] == ls[j]
    ensures forall j :: |ls| <= j < |ls'| ==> ls'[j] == {}
  {
    ls' := ls + seq(|input| + 1 - |ls|, _ => {});
    assert forall j :: 0 <= j < |ls| ==> ls'[j] == ls[j];
  }

  /**
   * What the history of a finished run shows: one entry per round, each with
   * the rest of the input from its index on; every entry but the last is
   * reachable, and the last is reachable or is the stuck entry "-" with an
   * empty stack, recorded when nothing is reachable with that rest, in a run
   * that is not accepted. A run shorter than the input ended stuck.
   */
  ghost predicate Recorded(t: Rules, init: Conf, input: string, h: seq<Conf>, accepted: bool)
  {
    && 1 <= |h| <= |input| + 1
    && (forall i :: 0 <= i < |h| ==> h[i].pos == input[i..])
    && (forall i :: 0 <= i < |h| - 1 ==> Reachable(Moves(t), {init}, h[i]))
    && (|| Reachable(Moves(t), {init}, h[|h| - 1])
        || (h[|h| - 1] == Config("-", input[|h| - 1..], []) && Stuck(t, init, input[|h| - 1..]) && !accepted))
    && (|h| <= |input| ==> Stuck(t, init, input[|h| - 1..]))
  }

  /** The entries recorded so far are members of the rounds' sets. */
  ghost predicate Sampled(history: seq<Conf>, ls: seq<set<Conf>>)
  {
    |history| == |ls| && forall j :: 0 <= j < |history| ==> history[j] in ls[j]
  }

  /** One more round and one more configuration found in it. */
  lemma SampledStep(history: seq<Conf>, ls: seq<set<Conf>>, rep: Conf, cl: set<Conf>)
    requires Sampled(history, ls) && rep in cl
    ensures Sampled(history + [rep], ls + [cl])
  {
    forall j | 0 <= j < |history| + 1
      ensures (history + [rep])[j] in (ls + [cl])[j]
    {
      if j < |history| {
        assert (history + [rep])[j] == history[j] && (ls + [cl])[j] == ls[j];
      }
    }
  }

  /** A run whose every round found configurations: its verdict is acceptance. */
  lemma FullRun(t: Rules, finals: set<string>, input: string, init: Conf, ls: seq<set<Conf>>, history: seq<Conf>)
    requires Layered(t, input, init, ls) && AllReached(t, init, ls) && |ls| == |input| + 1 && init.pos == input
    requires Sampled(history, ls)
    ensures Recorded(t, init, input, history, AnyFinal(ls[|input|], finals))
    ensures AnyFinal(ls[|input|], finals) <==> Accepts(t, finals, init)
  {
    if Accepts(t, finals, init) {
      var c :| Reachable(Moves(t), {init}, c) && c.pos == [] && c.state in finals;
      Complete(t, input, init, ls, c);
    }
  }

  /** A run whose round after index `i` found nothing: the stuck entry is due, and the input is not accepted. */
  lemma StuckRun(t: Rules, finals: set<string>, input: string, init: Conf, ls: seq<set<Conf>>, history: seq<Conf>)
    requires Layered(t, input, init, ls) && AllReached(t, init, ls) && |ls| <= |input| && init.pos == input
    requires Sampled(history, ls) && Image(CharOf(t), ls[|ls| - 1]) == {}
    ensures Recorded(t, init, input, history + [Config("-", input[|ls|..], [])], false)
    ensures !Accepts(t, finals, init)
  {
    Unreached(t, input, init, ls);
    var h := history + [Config("-", input[|ls|..], [])];
    assert forall j :: 0 <= j < |history| ==> h[j] == history[j] && h[j] in ls[j];
    assert Stuck(t, init, input[|ls|..]);
  }

  /** When a round finds no input move, nothing reachable has read past its index. */
  lemma Unreached(t: Rules, input: string, init: Conf, ls: seq<set<Conf>>)
    requires Layered(t, input, init, ls) && init.pos == input && Image(CharOf(t), ls[|ls| - 1]) == {}
    ensures forall c :: Reachable(Moves(t), {init}, c) ==> |c.pos| > |input| - |ls|
  {
    var ls' := Pad(t, input, init, ls);
    forall c | Reachable(Moves(t), {init}, c)
      ensures |c.pos| > |input| - |ls|
    {
      Complete(t, input, init, ls', c);
    }
  }

  /**
   * The loop of `simulate_history` from configuration `init`: the closure of
   * `init`, then one round per input character, each recording some
   * configuration it found, until a round finds nothing. Each closure runs
   * within `fuel` steps. A finished run accepts exactly when the input is
   * accepted, and its history is as `Recorded` describes.
   */
  method RunChars(t: Rules, finals: set<string>, init: Conf, input: string, fuel: nat) returns (r: Outcome<Run>)
    requires init.pos == input
    ensures r.Done? ==> Recorded(t, init, input, r.value.history, r.value.accepted)
    ensures r.Done? ==> (r.value.accepted <==> Accepts(t, finals, init))
  {
    var closed := CloseUnder(EpsOf(t, true), {init}, fuel);
    if closed.OutOfFuel? {
      return OutOfFuel;
    }
    var current := closed.value;
    FirstLayer(t, input, init, current);
    var first :| first in current;
    var history := [first];
    ghost var ls := [current];
    for i := 0 to |input|
      invariant |ls| == i + 1 && ls[i] == current
      invariant Layered(t, input, init, ls) && AllReached(t, init, ls)
      invariant Sampled(history, ls)
    {
      var next := MoveWithSymbol(t, current, input[i]);
      MovedIsImage(t, current, input, i);
      var cl := CloseUnder(EpsOf(t, true), next, fuel);
      if cl.OutOfFuel? {
        return OutOfFuel;
      }
      if cl.value == {} {
        // The machine is stuck: nothing is left to accept with.
        StuckRun(t, finals, input, init, ls, history);
        return Done(Run(history + [Config("-", input[i + 1..], [])], false));
      }
      NextLayer(t, input, init, ls, next, cl.value);
      var rep :| rep in cl.value;
      SampledStep(history, ls, rep, cl.value);
      history, ls, current := history + [rep], ls + [cl.value], cl.value;
    }
    FullRun(t, finals, input, init, ls, history);
    r := Done(Run(history, AnyFinal(current, finals)));
  }

  /** The alphabet updates of `add_transition`. */
  method ExtendAlphabets(inputs: set<string>, stack: set<string>, inp: string, pop: string, push: string)
    returns (inputs': set<string>, stack': set<string>)
    ensures inputs' == inputs + (if inp != Epsilon then {inp} else {})
    ensures stack' == stack + (if pop != Epsilon then {pop} else {}) + PushChars(push)
  {
    inputs', stack' := inputs, stack;
    if inp != Epsilon {
      inputs' := inputs' + {inp};
    }
    if pop != Epsilon {
      stack' := stack' + {pop};
    }
    stack' := AddPushChars(stack', push);
  }

  /** The older pushdown automaton: its sets and its rule table, changed in place. */
  class AutomatoPilha {
    var states: set<string>
    var inputAlphabet: set<string>
    var stackAlphabet: set<string>
    var start: Option<string>
    var startStack: string
    var finals: set<string>
    var transitions: Rules

    /** No label spells the literal "&", and the alphabets list every symbol the rules use. */
    ghost predicate Valid()
      reads this
    {
      ProperRules(transitions) && Covers(transitions, inputAlphabet, stackAlphabet)
    }

    /** The start state and the final states are states (renaming does not keep the rules between states). */
    ghost predicate Consistent()
      reads this
    {
      finals <= states && (start.Some? ==> start.value in states)
    }

    constructor ()
      ensures Valid() && Consistent()
      ensures states == {} && inputAlphabet == {} && stackAlphabet == {} && start == None
      ensures startStack == StartStack && finals == {} && transitions == map[]
    {
      states, inputAlphabet, stackAlphabet, start := {}, {}, {}, None;
      startStack, finals, transitions := StartStack, {}, map[];
    }

    /** `add_state`: the state joins, and becomes the start or a final state when asked. */
    method AddState(state: string, isStart: bool, isFinal: bool)
      modifies this
      ensures states == old(states) + {state}
      ensures start == if isStart then Some(state) else old(start)
      ensures finals == if isFinal then old(finals) + {state} else old(finals)
      ensures transitions == old(transitions) && inputAlphabet == old(inputAlphabet)
      ensures stackAlphabet == old(stackAlphabet) && startStack == old(startStack)
      ensures old(Valid()) ==> Valid()
      ensures old(Consistent()) ==> Consistent()
    {
      var newStart := if isStart then Some(state) else start;
      var newFinals := if isFinal then finals + {state} else finals;
      states, start, finals := states + {state}, newStart, newFinals;
    }

    /**
     * `add_transition`: an error for an unknown source or destination;
     * otherwise the input and pop symbols other than "&", and each pushed
     * character other than "&", join the alphabets, and the rule is stored.
     */
    method AddTransition(src: string, inp: string, pop: string, dst: string, push: string) returns (status: Status)
      modifies this
      ensures status == ValueError <==> src !in old(states) || dst !in old(states)
      ensures status == ValueError ==> unchanged(this)
      ensures status == Ok ==>
        && transitions == AddRule(old(transitions), KeyOf(src, inp, pop), (dst, push))
        && inputAlphabet == old(inputAlphabet) + (if inp != Epsilon then {inp} else {})
        && stackAlphabet == old(stackAlphabet) + (if pop != Epsilon then {pop} else {}) + PushChars(push)
        && states == old(states) && start == old(start) && finals == old(finals) && startStack == old(startStack)
      ensures old(Valid()) ==> Valid()
      ensures old(Consistent()) ==> Consistent()
    {
      if src !in states || dst !in states {
        return ValueError;
      }
      status := Ok;
      var inputs, stack := ExtendAlphabets(inputAlphabet, stackAlphabet, inp, pop, push);
      var k := KeyOf(src, inp, pop);
      var t := AddRule(transitions, k, (dst, push));
      AddRuleCovered(transitions, k, (dst, push), inputAlphabet, stackAlphabet, inputs, stack);
      inputAlphabet, stackAlphabet, transitions := inputs, stack, t;
    }

    /**
     * `rename_state`: an error for a missing name or one already taken;
     * otherwise the name changes in the states, the start and the final
     * states only. The rules keep the old name, so a rule from the renamed
     * state no longer starts at a state.
     */
    method RenameState(from: string, to: string) returns (status: Status)
      modifies this
      ensures status == ValueError <==> from !in old(states) || (to in old(states) && to != from)
      ensures status == ValueError ==> unchanged(this)
      ensures status == Ok ==>
        && states == old(states) - {from} + {to}
        && start == (if old(start) == Some(from) then Some(to) else old(start))
        && finals == (if from in old(finals) then old(finals) - {from} + {to} else old(finals))
        && transitions == old(transitions)
        && inputAlphabet == old(inputAlphabet) && stackAlphabet == old(stackAlphabet) && startStack == old(startStack)
      ensures status == Ok && from != to ==> forall k :: k in transitions && k.0 == from ==> k.0 !in states
      ensures old(Valid()) ==> Valid()
      ensures old(Consistent()) ==> Consistent()
    {
      if from !in states || (to in states && to != from) {
        return ValueError;
      }
      status := Ok;
      var newStart := if start == Some(from) then Some(to) else start;
      var newFinals := if from in finals then finals - {from} + {to} else finals;
      states, start, finals := states - {from} + {to}, newStart, newFinals;
    }

    /**
     * `simulate_history`: no start state (or an empty name) gives an empty run;
     * otherwise the rounds from the start state with the whole input left and
     * the start stack symbol on the stack.
     */
    method SimulateHistory(input: string, fuel: nat) returns (r: Outcome<Run>)
      ensures (start.None? || start.value == "") ==> r == Done(Run([], false))
      ensures r.Done? && start.Some? && start.value != "" ==>
        var init := Config(start.value, input, [startStack]);
        && Recorded(transitions, init, input, r.value.history, r.value.accepted)
        && (r.value.accepted <==> Accepts(transitions, finals, init))
    {
      if start.None? || start.value == "" {
        return Done(Run([], false));
      }
      r := RunChars(transitions, finals, Config(start.value, input, [startStack]), input, fuel);
    }

    /** `simulate`: false without a start state, else the verdict of `simulate_history`. */
    method Simulate(input: string, fuel: nat) returns (r: Outcome<bool>)
      ensures (start.None? || start.value == "") ==> r == Done(false)
      ensures r.Done? && start.Some? && start.value != "" ==>
        (r.value <==> Accepts(transitions, finals, Config(start.value, input, [startStack])))
    {
      if start.None? || start.value == "" {
        return Done(false);
      }
      var run := SimulateHistory(input, fuel);
      if run.OutOfFuel? {
        return OutOfFuel;
      }
      r := Done(run.value.accepted);
    }
  }
}
