/**
 * The transition rules and configurations shared by both pushdown-automaton
 * engines, and reachability in a configuration graph: the layers of
 * configurations reached in at most n steps, the least closed superset of a set,
 * and a worklist that computes it within a budget of steps. Both engines use
 * "&" for the empty move, the empty pop and the empty push.
 */
module PdaSpec {
  import opened Symbols
  import opened Maps

  /** The literal both pushdown engines use for "nothing": no input, no pop, no push. */
  const Epsilon: string := "&"

  /**
   * (source state, input label, pop label) -> set of (destination, push string).
   * A pop label `Eps` means the rule does not look at the stack.
   */
  type Rules = map<(string, Label, Label), set<(string, string)>>

  /**
   * A configuration: the state, the position in the input (an index in the newer
   * engine, the remaining input in the older one) and the stack, top last.
   */
  datatype Config<P> = Config(state: string, pos: P, stack: seq<string>)

  /** A search that either finished with a value or used up its budget of steps. */
  datatype Outcome<T> = Done(value: T) | OutOfFuel

  /** Neither the input label nor the pop label of a rule spells the epsilon literal. */
  ghost predicate ProperRules(t: Rules)
  {
    forall k :: k in t ==> ProperLabel(k.1, Epsilon) && ProperLabel(k.2, Epsilon)
  }

  /** The rules stored under key `k`, none when the key is absent. */
  function RulesAt(t: Rules, k: (string, Label, Label)): set<(string, string)>
  {
    if k in t then t[k] else {}
  }

  /**
   * The stack symbols a push string puts on, bottom first: one per character, and
   * none for the push "&". With `reversed` the characters go on last first, so
   * that the first character ends on top.
   */
  function Pushed(push: string, reversed: bool): (r: seq<string>)
    ensures |r| == if push == Epsilon then 0 else |push|
  {
    if push == Epsilon then []
    else seq(|push|, i requires 0 <= i < |push| => [push[if reversed then |push| - 1 - i else i]])
  }

  /**
   * After a push the old stack lies underneath, and the new top is the last
   * character of the push string, or its first when the push is reversed.
   */
  lemma PushedTop(stack: seq<string>, push: string, reversed: bool)
    requires push != Epsilon && push != ""
    ensures var s := stack + Pushed(push, reversed);
      && s[..|stack|] == stack
      && s[|s| - 1] == [push[if reversed then 0 else |push| - 1]]
      && |s| == |stack| + |push|
  {
    var s := stack + Pushed(push, reversed);
    assert s[..|stack|] == stack;
    assert s[|s| - 1] == Pushed(push, reversed)[|push| - 1];
  }

  /** The top of the stack, when the stack is not empty and its top is not the empty string. */
  function Top(stack: seq<string>): (r: Option<string>)
    ensures r.Some? <==> stack != [] && stack[|stack| - 1] != ""
    ensures r.Some? ==> r.value == stack[|stack| - 1]
  {
    if stack != [] && stack[|stack| - 1] != "" then Some(stack[|stack| - 1]) else None
  }

  /**
   * The configurations reached from `c` by the rules for input label `inp`,
   * landing at position `pos`: the rules that pop nothing push onto the whole
   * stack, and the rules that pop the top push onto the rest of it.
   */
  function Fire<P(==)>(t: Rules, c: Config<P>, inp: Label, pos: P, reversed: bool): set<Config<P>>
  {
    (set d | d in RulesAt(t, (c.state, inp, Eps)) :: Config(d.0, pos, c.stack + Pushed(d.1, reversed))) +
    match Top(c.stack)
    case None => {}
    case Some(top) =>
      set d | d in RulesAt(t, (c.state, inp, ToLabel(top, Epsilon))) ::
        Config(d.0, pos, c.stack[..|c.stack| - 1] + Pushed(d.1, reversed))
  }

  /**
   * A configuration reached by firing is one of the rules' destinations with
   * the given position, and its stack is the old one, or the old one less its
   * top, with the rule's push on it.
   */
  lemma FireSpec<P>(t: Rules, c: Config<P>, inp: Label, pos: P, reversed: bool, e: Config<P>)
    requires e in Fire(t, c, inp, pos, reversed)
    ensures e.pos == pos
    ensures exists d ::
      || (d in RulesAt(t, (c.state, inp, Eps)) && e == Config(d.0, pos, c.stack + Pushed(d.1, reversed)))
      || (Top(c.stack).Some? && d in RulesAt(t, (c.state, inp, ToLabel(c.stack[|c.stack| - 1], Epsilon))) &&
          e == Config(d.0, pos, c.stack[..|c.stack| - 1] + Pushed(d.1, reversed)))
  {
  }

  /** The empty moves of configuration `c`: they fire the empty-input rules and keep the position. */
  function EpsMoves<P(==)>(t: Rules, c: Config<P>, reversed: bool): set<Config<P>>
  {
    Fire(t, c, Eps, c.pos, reversed)
  }

  /** The empty moves as a step function. */
  function EpsOf<P(==)>(t: Rules, reversed: bool): Config<P> -> set<Config<P>>
  {
    c => EpsMoves(t, c, reversed)
  }

  /** The successors of the members of `x`. */
  ghost function Image<T(!new)>(succ: T -> set<T>, x: set<T>): set<T>
  {
    set c, d | c in x && d in succ(c) :: d
  }

  /** What is reached from `s` in at most `n` steps. */
  ghost function Layer<T(!new)>(succ: T -> set<T>, s: set<T>, n: nat): set<T>
  {
    if n == 0 then s else Layer(succ, s, n - 1) + Image(succ, Layer(succ, s, n - 1))
  }

  /** `c` is reached from `s` in finitely many steps. */
  ghost predicate Reachable<T(!new)>(succ: T -> set<T>, s: set<T>, c: T)
  {
    exists n: nat :: c in Layer(succ, s, n)
  }

  /** No step leaves `x`. */
  ghost predicate ClosedUnder<T(!new)>(succ: T -> set<T>, x: set<T>)
  {
    forall c :: c in x ==> succ(c) <= x
  }

  /** `x` is the least superset of `s` that no step leaves: exactly what is reachable from `s`. */
  ghost predicate IsClosureOf<T(!new)>(succ: T -> set<T>, s: set<T>, x: set<T>)
  {
    s <= x && ClosedUnder(succ, x) && forall c :: c in x ==> Reachable(succ, s, c)
  }

  /** Everything in `s` is reached in zero steps. */
  lemma ReachStart<T(!new)>(succ: T -> set<T>, s: set<T>, c: T)
    requires c in s
    ensures Reachable(succ, s, c)
  {
    assert c in Layer(succ, s, 0);
  }

  /** One step more from a reachable element reaches another. */
  lemma ReachStep<T(!new)>(succ: T -> set<T>, s: set<T>, c: T, d: T)
    requires Reachable(succ, s, c) && d in succ(c)
    ensures Reachable(succ, s, d)
  {
    var n: nat :| c in Layer(succ, s, n);
    assert d in Image(succ, Layer(succ, s, n));
    assert d in Layer(succ, s, n + 1);
  }

  /** A closed superset of `s` holds every layer. */
  lemma {:induction false} LayerWithin<T(!new)>(succ: T -> set<T>, s: set<T>, x: set<T>, n: nat)
    requires s <= x && ClosedUnder(succ, x)
    ensures Layer(succ, s, n) <= x
  {
    if n > 0 {
      LayerWithin(succ, s, x, n - 1);
      forall d | d in Image(succ, Layer(succ, s, n - 1))
        ensures d in x
      {
        var c :| c in Layer(succ, s, n - 1) && d in succ(c);
      }
    }
  }

  /** A closed superset of `s` holds everything reachable from `s`. */
  lemma ReachableWithin<T(!new)>(succ: T -> set<T>, s: set<T>, x: set<T>, c: T)
    requires s <= x && ClosedUnder(succ, x) && Reachable(succ, s, c)
    ensures c in x
  {
    var n: nat :| c in Layer(succ, s, n);
    LayerWithin(succ, s, x, n);
  }

  /** There is only one least closed superset. */
  lemma ClosureUnique<T(!new)>(succ: T -> set<T>, s: set<T>, x: set<T>, y: set<T>)
    requires IsClosureOf(succ, s, x) && IsClosureOf(succ, s, y)
    ensures x == y
  {
    forall c | c in x
      ensures c in y
    {
      ReachableWithin(succ, s, y, c);
    }
    forall c | c in y
      ensures c in x
    {
      ReachableWithin(succ, s, x, c);
    }
  }

  /** Every step of `small` is a step of `big`. */
  ghost predicate Within<T(!new)>(small: T -> set<T>, big: T -> set<T>)
  {
    forall c :: small(c) <= big(c)
  }

  /**
   * Going on by steps of `small` from configurations reached by `big` reaches
   * only configurations that `big` reaches.
   */
  lemma {:induction false} LayerReached<T(!new)>(small: T -> set<T>, big: T -> set<T>, s: set<T>, x: set<T>, n: nat)
    requires Within(small, big) && forall c :: c in x ==> Reachable(big, s, c)
    ensures forall c :: c in Layer(small, x, n) ==> Reachable(big, s, c)
  {
    if n > 0 {
      LayerReached(small, big, s, x, n - 1);
      forall d | d in Image(small, Layer(small, x, n - 1))
        ensures Reachable(big, s, d)
      {
        var c :| c in Layer(small, x, n - 1) && d in small(c);
        ReachStep(big, s, c, d);
      }
    }
  }

  /** Reachability composes: `small` steps after `big` ones are `big` steps. */
  lemma ReachedFrom<T(!new)>(small: T -> set<T>, big: T -> set<T>, s: set<T>, x: set<T>, c: T)
    requires Within(small, big) && (forall e :: e in x ==> Reachable(big, s, e))
    requires Reachable(small, x, c)
    ensures Reachable(big, s, c)
  {
    var n: nat :| c in Layer(small, x, n);
    LayerReached(small, big, s, x, n);
  }

  /** Empty moves never move along the input: a closure keeps the position of the set it closes. */
  lemma EpsClosurePos<P(!new)>(t: Rules, reversed: bool, x: set<Config<P>>, cl: set<Config<P>>, p: P, e: Config<P>)
    requires IsClosureOf(EpsOf(t, reversed), x, cl) && (forall d :: d in x ==> d.pos == p) && e in cl
    ensures e.pos == p
  {
    var n: nat :| e in Layer(EpsOf(t, reversed), x, n);
    EpsLayerPos(t, reversed, x, p, n);
  }

  lemma {:induction false} EpsLayerPos<P(!new)>(t: Rules, reversed: bool, x: set<Config<P>>, p: P, n: nat)
    requires forall d :: d in x ==> d.pos == p
    ensures forall d :: d in Layer(EpsOf(t, reversed), x, n) ==> d.pos == p
  {
    if n > 0 {
      EpsLayerPos(t, reversed, x, p, n - 1);
      forall d | d in Image(EpsOf(t, reversed), Layer(EpsOf(t, reversed), x, n - 1))
        ensures d.pos == p
      {
        var c :| c in Layer(EpsOf(t, reversed), x, n - 1) && d in EpsOf(t, reversed)(c);
        FireSpec(t, c, Eps, c.pos, reversed, d);
      }
    }
  }

  /** `any(state in finals for ...)`: some configuration of the set is in a final state. */
  function AnyFinal<P(==)>(reached: set<Config<P>>, finals: set<string>): bool
  {
    exists c :: c in reached && c.state in finals
  }

  /** What the worklist keeps: every member was reached, and only queued members may step outside. */
  ghost predicate WorklistInv<T(!new)>(succ: T -> set<T>, s: set<T>, closure: set<T>, queue: seq<T>)
  {
    && s <= closure
    && (forall x :: x in queue ==> x in closure)
    && (forall c :: c in closure ==> c in queue || succ(c) <= closure)
    && (forall c :: c in closure ==> Reachable(succ, s, c))
  }

  /** The inner loop of the closures: every successor not yet seen joins the closure and the queue. */
  method AddNew<T(==,!new)>(next: set<T>, closure: set<T>, queue: seq<T>) returns (closure': set<T>, queue': seq<T>)
    ensures closure' == closure + next
    ensures forall x :: x in queue' <==> x in queue || x in next - closure
  {
    closure', queue' := closure, queue;
    var todo := next;
    while todo != {}
      invariant todo <= next
      invariant closure' == closure + (next - todo)
      invariant forall x :: x in queue' <==> x in queue || x in (next - todo) - closure
      decreases todo
    {
      var x :| x in todo;
      todo := todo - {x};
      if x !in closure' {
        closure', queue' := closure' + {x}, queue' + [x];
      }
    }
  }

  /** Taking the front of the queue and adding its successors keeps the worklist invariant. */
  lemma WorklistStep<T(!new)>(succ: T -> set<T>, s: set<T>, closure: set<T>, queue: seq<T>,
                            closure': set<T>, queue': seq<T>)
    requires WorklistInv(succ, s, closure, queue) && queue != []
    requires closure' == closure + succ(queue[0])
    requires forall x :: x in queue' <==> x in queue[1..] || x in succ(queue[0]) - closure
    ensures WorklistInv(succ, s, closure', queue')
  {
    var c := queue[0];
    assert c in closure;
    forall d | d in succ(c)
      ensures Reachable(succ, s, d)
    {
      ReachStep(succ, s, c, d);
    }
    assert forall x :: x in queue ==> x == c || x in queue[1..];
  }

  /**
   * The closure loops of both engines: starting from `s`, take configurations
   * from the front of a queue and add their unseen successors, until the queue
   * empties or `fuel` steps are spent. A finished result is exactly what is
   * reachable from `s`.
   */
  method CloseUnder<T(==,!new)>(succ: T -> set<T>, s: set<T>, fuel: nat) returns (r: Outcome<set<T>>)
    ensures r.Done? ==> IsClosureOf(succ, s, r.value)
  {
    var closure := s;
    var queue := SeqOf(s);
    forall c | c in s
      ensures Reachable(succ, s, c)
    {
      ReachStart(succ, s, c);
    }
    var budget := fuel;
    while queue != []
      invariant WorklistInv(succ, s, closure, queue)
      decreases budget
    {
      if budget == 0 {
        return OutOfFuel;
      }
      budget := budget - 1;
      var c := queue[0];
      var closure', queue' := AddNew(succ(c), closure, queue[1..]);
      WorklistStep(succ, s, closure, queue, closure', queue');
      closure, queue := closure', queue';
    }
    r := Done(closure);
  }

  /** A rule key of the automaton: source state, input label, pop label. */
  type Key = (string, Label, Label)

  /** The rule key the raw strings of a rule are stored under. */
  function KeyOf(src: string, inp: string, pop: string): Key
  {
    (src, ToLabel(inp, Epsilon), ToLabel(pop, Epsilon))
  }

  /** `transitions[key].add(target)`. */
  function AddRule(t: Rules, k: Key, d: (string, string)): (r: Rules)
    ensures r.Keys == t.Keys + {k} && d in r[k]
  {
    t[k := RulesAt(t, k) + {d}]
  }

  /** The one-character stack symbols a push string names, the epsilon literal aside. */
  function PushChars(push: string): set<string>
  {
    set i | 0 <= i < |push| && [push[i]] != Epsilon :: [push[i]]
  }

  /** Every symbol a rule pushes is one the stack alphabet gets, or the epsilon literal. */
  lemma PushedAreListed(push: string, reversed: bool)
    ensures forall s :: s in Pushed(push, reversed) ==> s in PushChars(push) || s == Epsilon
  {
    forall s | s in Pushed(push, reversed)
      ensures s in PushChars(push) || s == Epsilon
    {
      var i :| 0 <= i < |Pushed(push, reversed)| && Pushed(push, reversed)[i] == s;
      var m := if reversed then |push| - 1 - i else i;
      assert s == [push[m]];
    }
  }

  /** The loop of `add_transition` over the characters of a push string. */
  method AddPushChars(alpha: set<string>, push: string) returns (r: set<string>)
    ensures r == alpha + PushChars(push)
  {
    r := alpha;
    for i := 0 to |push|
      invariant r == alpha + set j | 0 <= j < i && [push[j]] != Epsilon :: [push[j]]
    {
      if [push[i]] != Epsilon {
        r := r + {[push[i]]};
      }
    }
  }

  /** The stack symbols the push strings of some rules name. */
  function DestChars(dests: set<(string, string)>): set<string>
  {
    set d, s | d in dests && s in PushChars(d.1) :: s
  }

  /** Every symbol a rule uses is in the alphabets: input labels, pop labels and pushed characters. */
  ghost predicate Covers(t: Rules, inputs: set<string>, stack: set<string>)
  {
    forall k :: k in t ==>
      && (k.1.Sym? ==> k.1.text in inputs)
      && (k.2.Sym? ==> k.2.text in stack)
      && DestChars(t[k]) <= stack
  }

  /** Every rule starts and ends at a state. */
  ghost predicate RulesWithin(t: Rules, states: set<string>)
  {
    forall k :: k in t ==> k.0 in states && forall d :: d in t[k] ==> d.0 in states
  }

  /** Adding a rule, and its symbols to the alphabets, keeps the alphabets covering the rules. */
  lemma AddRuleCovered(t: Rules, k: Key, d: (string, string), inputs: set<string>, stack: set<string>,
                       inputs': set<string>, stack': set<string>)
    requires inputs <= inputs' && stack <= stack'
    requires (k.1.Sym? ==> k.1.text in inputs') && (k.2.Sym? ==> k.2.text in stack') && PushChars(d.1) <= stack'
    ensures Covers(t, inputs, stack) ==> Covers(AddRule(t, k, d), inputs', stack')
    ensures ProperRules(t) && ProperLabel(k.1, Epsilon) && ProperLabel(k.2, Epsilon) ==> ProperRules(AddRule(t, k, d))
  {
    if Covers(t, inputs, stack) {
      assert DestChars(RulesAt(t, k) + {d}) <= stack';
    }
  }

  /** Adding a rule between states keeps every rule between states. */
  lemma AddRuleWithin(t: Rules, k: Key, d: (string, string), states: set<string>)
    ensures RulesWithin(t, states) && k.0 in states && d.0 in states ==> RulesWithin(AddRule(t, k, d), states)
  {
  }

  /** Fewer rules push fewer characters. */
  lemma DestCharsMono(a: set<(string, string)>, b: set<(string, string)>)
    requires a <= b
    ensures DestChars(a) <= DestChars(b)
  {
  }
}
