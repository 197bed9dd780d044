/**
 * The transition relation of a finite automaton and the operations on it that
 * both finite-automaton engines share: moving on a label, closing a set of states
 * under empty moves, editing the (source, label) -> destinations map, and the
 * record the engines save and load.
 */
module NfaSpec {
  import opened Symbols

  /** (source state, label) -> set of destination states. */
  type Transitions = map<(string, Label), set<string>>

  /** No key maps to an empty set: every edit drops a key whose set empties. */
  ghost predicate NoEmptyTargets(t: Transitions)
  {
    forall k :: k in t ==> t[k] != {}
  }

  /** No stored symbol spells the epsilon literal `eps`. */
  ghost predicate ProperLabels(t: Transitions, eps: string)
  {
    forall k :: k in t ==> ProperLabel(k.1, eps)
  }

  /** Every non-empty-move label is a non-empty string. */
  ghost predicate NonEmptyLabels(t: Transitions)
  {
    forall k :: k in t && k.1.Sym? ==> k.1.text != ""
  }

  /** Every state named by a transition, as source or destination, is in `states`. */
  ghost predicate WithinStates(t: Transitions, states: set<string>)
  {
    forall k :: k in t ==> k.0 in states && t[k] <= states
  }

  /** All destination states of all transitions. */
  function Targets(t: Transitions): set<string>
  {
    set k, d | k in t && d in t[k] :: d
  }

  /** `move(S, l)`: the destinations of the `l`-transitions leaving `S`. */
  function Move(t: Transitions, s: set<string>, l: Label): (r: set<string>)
    ensures r <= Targets(t)
  {
    set k, d | k in t && k.0 in s && k.1 == l && d in t[k] :: d
  }

  /** A state is reached by `move` exactly when some state of `s` has an `l`-transition to it. */
  lemma MoveSpec(t: Transitions, s: set<string>, l: Label)
    ensures forall q, d :: q in s && (q, l) in t && d in t[(q, l)] ==> d in Move(t, s, l)
    ensures forall d :: d in Move(t, s, l) ==> exists q :: q in s && (q, l) in t && d in t[(q, l)]
  {
  }

  /** `c` has no empty move leaving it. */
  ghost predicate EpsClosed(t: Transitions, c: set<string>)
  {
    forall k :: k in t && k.0 in c && k.1 == Eps ==> t[k] <= c
  }

  /**
   * The states reachable from `s` by empty moves alone, computed by adding the
   * empty-move successors until nothing new appears.
   */
  function Closure(t: Transitions, s: set<string>): (r: set<string>)
    ensures s <= r
    decreases |Targets(t) - s|
  {
    var next := s + Move(t, s, Eps);
    if next <= s then s
    else
      FewerMissing(t, s, next);
      Closure(t, next)
  }

  lemma CardLess<T>(a: set<T>, b: set<T>)
    requires a < b
    ensures |a| < |b|
  {
    assert !(b <= a);
    var x :| x in b && x !in a;
    assert a <= b - {x};
    assert |b - {x}| == |b| - 1;
    CardLeq(a, b - {x});
  }

  /** A set of at most one member is that member alone. */
  lemma OnlyMember<T>(s: set<T>, x: T)
    requires |s| <= 1 && x in s
    ensures s == {x}
  {
    var rest := s - {x};
    assert |rest| == |s| - 1;
  }

  lemma {:induction false} CardLeq<T>(a: set<T>, b: set<T>)
    requires a <= b
    ensures |a| <= |b|
    decreases |a|
  {
    if a != {} {
      var x :| x in a;
      CardLeq(a - {x}, b - {x});
    }
  }

  /** Adding a new destination shrinks the destinations still missing. */
  lemma FewerMissing(t: Transitions, s: set<string>, next: set<string>)
    requires s <= next <= s + Targets(t) && !(next <= s)
    ensures |Targets(t) - next| < |Targets(t) - s|
  {
    var x :| x in next && x !in s;
    assert x in Targets(t) - s && x !in Targets(t) - next;
    CardLess(Targets(t) - next, Targets(t) - s);
  }

  /**
   * The closure adds only destinations of transitions, and no empty move leaves
   * it.
   */
  lemma {:induction false} ClosureSpec(t: Transitions, s: set<string>)
    ensures Closure(t, s) <= s + Targets(t)
    ensures EpsClosed(t, Closure(t, s))
    decreases |Targets(t) - s|
  {
    var next := s + Move(t, s, Eps);
    if !(next <= s) {
      FewerMissing(t, s, next);
      ClosureSpec(t, next);
    } else {
      MoveSpec(t, s, Eps);
    }
  }

  /** The closure is the least superset of `s` without an empty move leaving it. */
  lemma {:induction false} ClosureLeast(t: Transitions, s: set<string>, d: set<string>)
    requires s <= d && EpsClosed(t, d)
    ensures Closure(t, s) <= d
    decreases |Targets(t) - s|
  {
    var next := s + Move(t, s, Eps);
    MoveSpec(t, s, Eps);
    if !(next <= s) {
      FewerMissing(t, s, next);
      ClosureLeast(t, next, d);
    }
  }

  /** A set without empty moves leaving it is its own closure. */
  lemma ClosureOfClosed(t: Transitions, c: set<string>)
    requires EpsClosed(t, c)
    ensures Closure(t, c) == c
  {
    ClosureLeast(t, c, c);
  }

  /** Closing twice is closing once; the closure contains what it closes. */
  lemma ClosureIdempotent(t: Transitions, s: set<string>)
    ensures s <= Closure(t, s)
    ensures Closure(t, Closure(t, s)) == Closure(t, s)
  {
    ClosureSpec(t, s);
    ClosureOfClosed(t, Closure(t, s));
  }

  /** Closure is monotone in the set it closes. */
  lemma ClosureMonotone(t: Transitions, s1: set<string>, s2: set<string>)
    requires s1 <= s2
    ensures Closure(t, s1) <= Closure(t, s2)
  {
    ClosureSpec(t, s2);
    ClosureLeast(t, s1, Closure(t, s2));
  }

  /**
   * The active set after consuming the symbol `sym`: the closure of the move on
   * it. The simulators and the subset construction both step this way.
   */
  function NextActive(t: Transitions, cur: set<string>, sym: string): (r: set<string>)
    ensures r <= Targets(t)
  {
    ClosureSpec(t, Move(t, cur, Sym(sym)));
    Closure(t, Move(t, cur, Sym(sym)))
  }

  /** Nothing moves out of the empty set. */
  lemma NextActiveOfEmpty(t: Transitions, sym: string)
    ensures NextActive(t, {}, sym) == {}
  {
    assert Move(t, {}, Sym(sym)) == {};
    assert Move(t, {}, Eps) == {};
  }

  /**
   * Where the transitions lead from `q` by the symbols of `w`, one after another,
   * taking a destination of each transition followed; `None` when some symbol has
   * no transition. Meant for deterministic maps, where the destination is unique.
   */
  ghost function Walk(t: Transitions, q: string, w: seq<string>): Option<string>
    decreases |w|
  {
    if w == [] then Some(q)
    else if (q, Sym(w[0])) in t && t[(q, Sym(w[0]))] != {} then
      var d :| d in t[(q, Sym(w[0]))];
      Walk(t, d, w[1..])
    else None
  }

  /** The walk from `q` by `w` ends in a state of `fin`. */
  ghost predicate Accepts(t: Transitions, q: string, w: seq<string>, fin: set<string>)
  {
    var r := Walk(t, q, w);
    r.Some? && r.value in fin
  }

  /** A walk follows the one destination of its first symbol's key. */
  lemma WalkOne(t: Transitions, q: string, w: seq<string>, d: string)
    requires w != [] && (q, Sym(w[0])) in t && t[(q, Sym(w[0]))] == {d}
    ensures Walk(t, q, w) == Walk(t, d, w[1..])
  {
  }

  /** A walk without a key for its first symbol gets stuck. */
  lemma WalkNone(t: Transitions, q: string, w: seq<string>)
    requires w != [] && (q, Sym(w[0])) !in t
    ensures Walk(t, q, w) == None
  {
  }

  /** An input as the word of its one-character symbols. */
  function Word(input: string): (w: seq<string>)
    ensures |w| == |input| && forall i :: 0 <= i < |w| ==> w[i] == [input[i]]
  {
    seq(|input|, i requires 0 <= i < |input| => [input[i]])
  }

  /** Dropping the first character of an input drops the first symbol of its word. */
  lemma WordTail(input: string)
    requires input != []
    ensures Word(input)[0] == [input[0]] && Word(input)[1..] == Word(input[1..])
  {
  }

  /**
   * The active set after reading the symbols of `w` one after another from
   * `cur`, each step the closure of the move on the symbol.
   */
  function Follow(t: Transitions, cur: set<string>, w: seq<string>): set<string>
    decreases |w|
  {
    if w == [] then cur else Follow(t, NextActive(t, cur, w[0]), w[1..])
  }

  /** Nothing active stays nothing active. */
  lemma {:induction false} FollowOfEmpty(t: Transitions, w: seq<string>)
    ensures Follow(t, {}, w) == {}
    decreases |w|
  {
    if w != [] {
      NextActiveOfEmpty(t, w[0]);
      FollowOfEmpty(t, w[1..]);
    }
  }

  /**
   * On a map with one destination per key and no empty move, following a word
   * from one state is the walk: the single state it ends in, or nothing when it
   * gets stuck.
   */
  lemma {:induction false} FollowDfa(t: Transitions, q: string, w: seq<string>)
    requires forall k :: k in t ==> |t[k]| == 1 && k.1.Sym?
    ensures Follow(t, {q}, w) == (var r := Walk(t, q, w); if r.Some? then {r.value} else {})
    decreases |w|
  {
    if w != [] {
      var k := (q, Sym(w[0]));
      var mv := Move(t, {q}, Sym(w[0]));
      ClosureOfClosed(t, mv);
      if k in t {
        var d :| d in t[k];
        OnlyMember(t[k], d);
        assert mv == {d};
        WalkOne(t, q, w, d);
        FollowDfa(t, d, w[1..]);
      } else {
        assert mv == {};
        FollowOfEmpty(t, w[1..]);
      }
    }
  }

  /** `list(s)`: the members of a set in some order, each once. */
  method ListOf(s: set<string>) returns (r: seq<string>)
    ensures forall x :: x in r <==> x in s
    ensures |r| == |s|
  {
    r := [];
    var rest := s;
    while rest != {}
      invariant rest <= s
      invariant forall x :: x in r <==> x in s - rest
      invariant |r| + |rest| == |s|
      decreases rest
    {
      var x :| x in rest;
      r, rest := r + [x], rest - {x};
    }
  }

  /**
   * Adds the members of `succ` that are not yet in the closure to both the
   * closure and the stack.
   */
  method PushNew(succ: set<string>, closure: set<string>, stack: seq<string>)
    returns (closure': set<string>, stack': seq<string>)
    ensures closure' == closure + succ
    ensures forall x :: x in stack' <==> x in stack || x in succ - closure
    ensures succ <= closure ==> stack' == stack
  {
    closure', stack' := closure, stack;
    var todo := succ;
    while todo != {}
      invariant todo <= succ
      invariant closure' == closure + (succ - todo)
      invariant forall x :: x in stack' <==> x in stack || x in (succ - todo) - closure
      invariant succ <= closure ==> stack' == stack
      decreases todo
    {
      var nxt :| nxt in todo;
      todo := todo - {nxt};
      if nxt !in closure' {
        closure' := closure' + {nxt};
        stack' := stack' + [nxt];
      }
    }
  }

  lemma PopLast(stack: seq<string>)
    requires stack != []
    ensures forall x :: x in stack <==> x in stack[..|stack| - 1] || x == stack[|stack| - 1]
  {
    assert stack == stack[..|stack| - 1] + [stack[|stack| - 1]];
  }

  /**
   * What the closure loop keeps: the closure found so far lies between the start
   * set and the full closure, and only states still on the stack may have empty
   * moves leading outside it.
   */
  ghost predicate ClosureLoopInv(t: Transitions, s: set<string>, full: set<string>,
                                 closure: set<string>, stack: seq<string>)
  {
    && s <= closure <= full
    && EpsClosed(t, full)
    && (forall x :: x in stack ==> x in closure)
    && (forall k :: k in t && k.0 in closure && k.0 !in stack && k.1 == Eps ==> t[k] <= closure)
  }

  /** One round of `epsilon_closure`: pop a state and push its new empty-move successors. */
  method ExpandTop(t: Transitions, ghost s: set<string>, ghost full: set<string>,
                   closure: set<string>, stack: seq<string>)
    returns (closure': set<string>, stack': seq<string>)
    requires stack != [] && ClosureLoopInv(t, s, full, closure, stack)
    ensures ClosureLoopInv(t, s, full, closure', stack')
    ensures closure' == closure ==> |stack'| < |stack|
    ensures closure' != closure ==> |full - closure'| < |full - closure|
  {
    var state := stack[|stack| - 1];
    var rest := stack[..|stack| - 1];
    PopLast(stack);
    var succ := if (state, Eps) in t then t[(state, Eps)] else {};
    assert succ <= full;
    closure', stack' := PushNew(succ, closure, rest);
    ExpandedStaysClosed(t, state, succ, closure, closure', stack, stack');
    if closure' != closure {
      CardLess(full - closure', full - closure);
    }
  }

  lemma ExpandedStaysClosed(t: Transitions, state: string, succ: set<string>,
                            before: set<string>, closure: set<string>,
                            oldStack: seq<string>, stack: seq<string>)
    requires succ == if (state, Eps) in t then t[(state, Eps)] else {}
    requires closure == before + succ
    requires forall x :: x in stack ==> x in oldStack || x in succ - before
    requires forall x :: x in oldStack ==> x in stack || x == state
    requires forall x :: x in succ - before ==> x in stack
    requires forall k :: k in t && k.0 in before && k.0 !in oldStack && k.1 == Eps ==> t[k] <= before
    ensures forall k :: k in t && k.0 in closure && k.0 !in stack && k.1 == Eps ==> t[k] <= closure
  {
  }

  /**
   * `epsilon_closure`: a stack of states still to expand; every state popped has
   * its empty-move successors added to the closure and, when new, pushed.
   */
  method EpsilonClosure(t: Transitions, s: set<string>) returns (closure: set<string>)
    ensures closure == Closure(t, s)
  {
    ghost var full := Closure(t, s);
    ClosureSpec(t, s);
    closure := s;
    var stack := ListOf(s);
    while stack != []
      invariant ClosureLoopInv(t, s, full, closure, stack)
      decreases |full - closure|, |stack|
    {
      closure, stack := ExpandTop(t, s, full, closure, stack);
    }
    ClosureLeast(t, s, closure);
  }

  /** `transitions[k].add(d)`. */
  function AddTarget(t: Transitions, k: (string, Label), d: string): (r: Transitions)
    ensures r.Keys == t.Keys + {k}
    ensures d in r[k]
  {
    t[k := (if k in t then t[k] else {}) + {d}]
  }

  /** `transitions[k].discard(d)`, deleting the key when its set becomes empty. */
  function RemoveTarget(t: Transitions, k: (string, Label), d: string): (r: Transitions)
    ensures NoEmptyTargets(t) ==> NoEmptyTargets(r)
    ensures k in r ==> d !in r[k]
    ensures forall j :: j in t && j != k ==> j in r && r[j] == t[j]
  {
    if k !in t then t
    else if t[k] - {d} == {} then t - {k}
    else t[k := t[k] - {d}]
  }

  /** Removing a destination just added to a key that did not have it undoes the addition. */
  lemma RemoveUndoesAdd(t: Transitions, k: (string, Label), d: string)
    requires NoEmptyTargets(t)
    requires k !in t || d !in t[k]
    ensures RemoveTarget(AddTarget(t, k, d), k, d) == t
  {
    var r := RemoveTarget(AddTarget(t, k, d), k, d);
    if k in t {
      assert r[k] == t[k];
    }
    assert r.Keys == t.Keys;
  }

  /**
   * The transitions left after a state is removed: no key leaves it, no set holds
   * it, and a key whose set empties is dropped.
   */
  function Purge(t: Transitions, q: string): (r: Transitions)
    ensures forall k :: k in r ==> k.0 != q && q !in r[k] && r[k] != {}
    ensures forall k :: k in r ==> k in t && r[k] == t[k] - {q}
    ensures forall k :: k in t && k.0 != q && t[k] - {q} != {} ==> k in r
  {
    map k | k in t && k.0 != q && t[k] - {q} != {} :: t[k] - {q}
  }

  /** Renaming one state name. */
  function RenameIn(x: string, from: string, to: string): string
  {
    if x == from then to else x
  }

  function RenameSet(s: set<string>, from: string, to: string): set<string>
  {
    set x | x in s :: RenameIn(x, from, to)
  }

  /** No key already leaves `to`, so renaming `from` to `to` merges no keys. */
  ghost predicate RenameFree(t: Transitions, from: string, to: string)
  {
    from == to || forall k :: k in t ==> k.0 != to
  }

  /** The key a renamed key came from. */
  function RenameOrigin(j: (string, Label), from: string, to: string): (string, Label)
  {
    if j.0 == to then (from, j.1) else j
  }

  /** The keys left after renaming `from` to `to`. */
  predicate RenamedKey(t: Transitions, j: (string, Label), from: string, to: string)
  {
    if j.0 == to then (from, j.1) in t else j.0 != from && j in t
  }

  /** The transitions after renaming `from` to `to` in every source and destination. */
  function RenameMap(t: Transitions, from: string, to: string): (r: Transitions)
    requires RenameFree(t, from, to)
    ensures forall k :: k in t ==> (RenameIn(k.0, from, to), k.1) in r
  {
    var candidates := t.Keys + set k | k in t :: (to, k.1);
    map j | j in candidates && RenamedKey(t, j, from, to) :: RenameSet(t[RenameOrigin(j, from, to)], from, to)
  }

  /**
   * Renaming a state of a consistent automaton to an unused name keeps every
   * transition among the renamed states.
   */
  lemma RenameWithinStates(t: Transitions, states: set<string>, from: string, to: string)
    requires WithinStates(t, states) && from in states && (to !in states || to == from)
    ensures RenameFree(t, from, to)
    ensures WithinStates(RenameMap(t, from, to), states - {from} + {to})
  {
    var r := RenameMap(t, from, to);
    forall j | j in r
      ensures j.0 in states - {from} + {to} && r[j] <= states - {from} + {to}
    {
      assert RenamedKey(t, j, from, to);
    }
  }

  /** The name `x` appears nowhere in the transitions. */
  ghost predicate Absent(t: Transitions, x: string)
  {
    forall k :: k in t ==> k.0 != x && x !in t[k]
  }

  lemma RenameSetBack(s: set<string>, from: string, to: string)
    requires to !in s
    ensures RenameSet(RenameSet(s, from, to), to, from) == s
  {
    var back := RenameSet(RenameSet(s, from, to), to, from);
    forall x | x in s
      ensures x in back
    {
      assert RenameIn(RenameIn(x, from, to), to, from) == x;
    }
  }

  /** Renaming to a name not in use and back again restores the transitions. */
  lemma RenameBack(t: Transitions, from: string, to: string)
    requires from != to && Absent(t, to)
    ensures RenameFree(t, from, to)
    ensures RenameFree(RenameMap(t, from, to), to, from)
    ensures RenameMap(RenameMap(t, from, to), to, from) == t
  {
    var r := RenameMap(t, from, to);
    assert RenameFree(r, to, from) by {
      forall j | j in r
        ensures j.0 != from
      {
        assert RenamedKey(t, j, from, to);
      }
    }
    var back := RenameMap(r, to, from);
    forall k | k in t
      ensures k in back && back[k] == t[k]
    {
      var j := (RenameIn(k.0, from, to), k.1);
      assert j in r && r[j] == RenameSet(t[k], from, to);
      assert RenamedKey(r, k, to, from);
      assert back[k] == RenameSet(r[j], to, from);
      RenameSetBack(t[k], from, to);
    }
    forall k | k in back
      ensures k in t
    {
      assert RenamedKey(r, k, to, from);
      var j := RenameOrigin(k, to, from);
      assert RenamedKey(t, j, from, to);
    }
    SameMap(back, t);
  }

  lemma SameMap(a: Transitions, b: Transitions)
    requires forall k :: k in a <==> k in b
    requires forall k :: k in a ==> a[k] == b[k]
    ensures a == b
  {
  }

  /** The part of `t` whose keys are in `done`. */
  function Restrict(t: Transitions, done: set<(string, Label)>): Transitions
  {
    map k | k in t && k in done :: t[k]
  }

  lemma RestrictAll(t: Transitions)
    ensures Restrict(t, t.Keys) == t
  {
    SameMap(Restrict(t, t.Keys), t);
  }

  lemma PurgeStep(t: Transitions, done: set<(string, Label)>, k: (string, Label), q: string)
    requires k in t && k !in done
    ensures Purge(Restrict(t, done + {k}), q) ==
      var p := Purge(Restrict(t, done), q);
      if k.0 != q && t[k] - {q} != {} then p[k := t[k] - {q}] else p
  {
    var p := Purge(Restrict(t, done), q);
    SameMap(Purge(Restrict(t, done + {k}), q), if k.0 != q && t[k] - {q} != {} then p[k := t[k] - {q}] else p);
  }

  /** `remove_state`'s rebuilding loop over the transition items. */
  method PurgeLoop(t: Transitions, q: string) returns (r: Transitions)
    ensures r == Purge(t, q)
  {
    r := map[];
    var done: set<(string, Label)> := {};
    var todo := t.Keys;
    while todo != {}
      invariant todo == t.Keys - done && done <= t.Keys
      invariant r == Purge(Restrict(t, done), q)
      decreases todo
    {
      var k :| k in todo;
      PurgeStep(t, done, k, q);
      if k.0 != q {
        var newDsts := t[k] - {q};
        if newDsts != {} {
          r := r[k := newDsts];
        }
      }
      done, todo := done + {k}, todo - {k};
    }
    RestrictAll(t);
  }

  lemma RestrictAdd(t: Transitions, done: set<(string, Label)>, k: (string, Label))
    requires k in t && k !in done
    ensures k !in Restrict(t, done)
    ensures Restrict(t, done + {k}) == Restrict(t, done)[k := t[k]]
  {
    SameMap(Restrict(t, done + {k}), Restrict(t, done)[k := t[k]]);
  }

  lemma RestrictFree(t: Transitions, done: set<(string, Label)>, from: string, to: string)
    requires RenameFree(t, from, to)
    ensures RenameFree(Restrict(t, done), from, to)
  {
  }

  /** Renaming a map with one more key renames that key too. */
  lemma RenameMapAdd(a: Transitions, k: (string, Label), v: set<string>, from: string, to: string)
    requires k !in a && RenameFree(a[k := v], from, to)
    ensures RenameFree(a, from, to)
    ensures RenameMap(a[k := v], from, to) == RenameMap(a, from, to)[(RenameIn(k.0, from, to), k.1) := RenameSet(v, from, to)]
  {
    var big := RenameMap(a[k := v], from, to);
    var expected := RenameMap(a, from, to)[(RenameIn(k.0, from, to), k.1) := RenameSet(v, from, to)];
    RenameMapAddOld(a, k, v, from, to);
    RenameMapAddNew(a, k, v, from, to);
    SameMap(big, expected);
  }

  lemma RenameMapAddOld(a: Transitions, k: (string, Label), v: set<string>, from: string, to: string)
    requires k !in a && RenameFree(a[k := v], from, to)
    ensures var big := RenameMap(a[k := v], from, to);
      var expected := RenameMap(a, from, to)[(RenameIn(k.0, from, to), k.1) := RenameSet(v, from, to)];
      forall i :: i in big ==> i in expected && big[i] == expected[i]
  {
    var b := a[k := v];
    var big := RenameMap(b, from, to);
    var j := (RenameIn(k.0, from, to), k.1);
    forall i | i in big && i != j
      ensures i in RenameMap(a, from, to) && big[i] == RenameMap(a, from, to)[i]
    {
      assert RenamedKey(b, i, from, to);
      assert RenameOrigin(i, from, to) != k;
      assert RenamedKey(a, i, from, to);
    }
  }

  lemma RenameMapAddNew(a: Transitions, k: (string, Label), v: set<string>, from: string, to: string)
    requires k !in a && RenameFree(a[k := v], from, to)
    ensures var big := RenameMap(a[k := v], from, to);
      var expected := RenameMap(a, from, to)[(RenameIn(k.0, from, to), k.1) := RenameSet(v, from, to)];
      forall i :: i in expected ==> i in big
  {
    var b := a[k := v];
    var j := (RenameIn(k.0, from, to), k.1);
    forall i | i in RenameMap(a, from, to)
      ensures i in RenameMap(b, from, to)
    {
      assert RenamedKey(a, i, from, to);
      assert RenamedKey(b, i, from, to);
    }
    assert RenamedKey(b, j, from, to);
  }

  /** A key with `from` renamed to `to` as its source. */
  function RenameKey(k: (string, Label), from: string, to: string): (string, Label)
  {
    (RenameIn(k.0, from, to), k.1)
  }

  /**
   * `r` re-indexes the keys `keys` of `t`: each of them appears renamed, and
   * every key of `r` is the renaming of one of them and carries that key's
   * renamed set (when two keys merge, the one written last).
   */
  ghost predicate RenamedSets(t: Transitions, keys: set<(string, Label)>, r: Transitions, from: string, to: string)
  {
    && (forall k {:trigger RenameKey(k, from, to)} :: k in keys ==> RenameKey(k, from, to) in r)
    && (forall j :: j in r ==>
          exists k :: k in keys && k in t && RenameKey(k, from, to) == j && r[j] == RenameSet(t[k], from, to))
  }

  /** What `rename_state`'s loop keeps: the keys done so far are renamed. */
  ghost predicate RenamedSoFar(t: Transitions, done: set<(string, Label)>, r: Transitions, from: string, to: string)
  {
    RenameFree(t, from, to) ==> RenameFree(Restrict(t, done), from, to) && r == RenameMap(Restrict(t, done), from, to)
  }

  lemma RenameLoopStep(t: Transitions, done: set<(string, Label)>, k: (string, Label), r: Transitions, from: string, to: string)
    requires k in t && k !in done && RenamedSoFar(t, done, r, from, to)
    ensures RenamedSoFar(t, done + {k}, r[(RenameIn(k.0, from, to), k.1) := RenameSet(t[k], from, to)], from, to)
  {
    RestrictAdd(t, done, k);
    if RenameFree(t, from, to) {
      RestrictFree(t, done + {k}, from, to);
      RenameMapAdd(Restrict(t, done), k, t[k], from, to);
    }
  }

  lemma RenamedSetsStep(t: Transitions, done: set<(string, Label)>, r: Transitions, k: (string, Label),
                        from: string, to: string)
    requires k in t && RenamedSets(t, done, r, from, to)
    ensures RenamedSets(t, done + {k}, r[RenameKey(k, from, to) := RenameSet(t[k], from, to)], from, to)
  {
    var r' := r[RenameKey(k, from, to) := RenameSet(t[k], from, to)];
    forall j | j in r'
      ensures exists k' :: k' in done + {k} && k' in t && RenameKey(k', from, to) == j && r'[j] == RenameSet(t[k'], from, to)
    {
      if j != RenameKey(k, from, to) {
        var k' :| k' in done && k' in t && RenameKey(k', from, to) == j && r[j] == RenameSet(t[k'], from, to);
        assert k' in done + {k};
      }
    }
  }

  lemma RenameLoopDone(t: Transitions, r: Transitions, from: string, to: string)
    requires RenamedSoFar(t, t.Keys, r, from, to)
    ensures RenameFree(t, from, to) ==> r == RenameMap(t, from, to)
  {
    RestrictAll(t);
  }

  /**
   * `rename_state`'s rebuilding loop: every key and destination set is written
   * again under the new name. When two keys merge, the set written last
   * survives, and which one that is depends on the dictionary's iteration
   * order; without a merge the result is `RenameMap`.
   */
  method RenameLoop(t: Transitions, from: string, to: string) returns (r: Transitions)
    ensures RenameFree(t, from, to) ==> r == RenameMap(t, from, to)
    ensures RenamedSets(t, t.Keys, r, from, to)
  {
    r := map[];
    var done: set<(string, Label)> := {};
    var todo := t.Keys;
    SameMap(r, RenameMap(Restrict(t, done), from, to));
    while todo != {}
      invariant todo == t.Keys - done && done <= t.Keys
      invariant RenamedSoFar(t, done, r, from, to)
      invariant RenamedSets(t, done, r, from, to)
      decreases todo
    {
      var k :| k in todo;
      var newSrc := if k.0 == from then to else k.0;
      var newDsts := RenameSet(t[k], from, to);
      RenameLoopStep(t, done, k, r, from, to);
      RenamedSetsStep(t, done, r, k, from, to);
      r := r[(newSrc, k.1) := newDsts];
      done, todo := done + {k}, todo - {k};
    }
    assert done == t.Keys;
    RenameLoopDone(t, r, from, to);
  }

  /** `move`: the union, over the given states, of their `l`-destinations. */
  method MoveStates(t: Transitions, s: set<string>, l: Label) returns (r: set<string>)
    ensures r == Move(t, s, l)
  {
    r := {};
    var todo := s;
    while todo != {}
      invariant todo <= s
      invariant r == Move(t, s - todo, l)
      decreases todo
    {
      var q :| q in todo;
      r := r + (if (q, l) in t then t[(q, l)] else {});
      todo := todo - {q};
    }
  }

  /** One saved transition: source, label text and destinations. */
  datatype Entry = Entry(src: string, symbol: string, dsts: set<string>)

  /** The saved form of a finite automaton. */
  datatype Record = Record(
    states: set<string>,
    start: Option<string>,
    finals: set<string>,
    alphabet: set<string>,
    transitions: set<Entry>)

  /** `to_json`'s transition list: one entry per key. */
  function EntriesOf(t: Transitions, eps: string): set<Entry>
  {
    set k | k in t :: Entry(k.0, LabelText(k.1, eps), t[k])
  }

  function EntryKey(e: Entry, eps: string): (string, Label)
  {
    (e.src, ToLabel(e.symbol, eps))
  }

  function KeysOf(es: set<Entry>, eps: string): set<(string, Label)>
  {
    set e | e in es && e.dsts != {} :: EntryKey(e, eps)
  }

  function DstsFor(es: set<Entry>, k: (string, Label), eps: string): set<string>
  {
    set e, d | e in es && EntryKey(e, eps) == k && d in e.dsts :: d
  }

  /**
   * `from_json`'s transition loop: every destination of every entry is added under
   * the entry's key, so an entry without destinations creates no key.
   */
  function TransitionsOf(es: set<Entry>, eps: string): (t: Transitions)
    ensures NoEmptyTargets(t) && ProperLabels(t, eps)
  {
    map k | k in KeysOf(es, eps) :: DstsFor(es, k, eps)
  }

  /** Loading the saved transition list gives back the transitions saved. */
  lemma TransitionsRoundTrip(t: Transitions, eps: string)
    requires NoEmptyTargets(t) && ProperLabels(t, eps)
    ensures TransitionsOf(EntriesOf(t, eps), eps) == t
  {
    var es := EntriesOf(t, eps);
    var r := TransitionsOf(es, eps);
    forall k | k in t
      ensures EntryKey(Entry(k.0, LabelText(k.1, eps), t[k]), eps) == k
    {
      LabelTextRoundTrip(k.1, eps);
    }
    forall k | k in t
      ensures k in r && r[k] == t[k]
    {
      var e := Entry(k.0, LabelText(k.1, eps), t[k]);
      assert e in es;
      var d :| d in t[k];
      assert d in e.dsts;
      forall d' | d' in r[k]
        ensures d' in t[k]
      {
        var e' :| e' in es && EntryKey(e', eps) == k && d' in e'.dsts;
        var k' :| k' in t && e' == Entry(k'.0, LabelText(k'.1, eps), t[k']);
        assert k' == k;
      }
    }
    forall k | k in r
      ensures k in t
    {
      var e :| e in es && e.dsts != {} && EntryKey(e, eps) == k;
      var k' :| k' in t && e == Entry(k'.0, LabelText(k'.1, eps), t[k']);
    }
    assert r.Keys == t.Keys;
  }

  lemma DstsForAdd(done: set<Entry>, e: Entry, k: (string, Label), eps: string)
    ensures DstsFor(done + {e}, k, eps) == DstsFor(done, k, eps) + (if EntryKey(e, eps) == k then e.dsts else {})
  {
  }

  lemma KeysOfAdd(done: set<Entry>, e: Entry, eps: string)
    ensures KeysOf(done + {e}, eps) == KeysOf(done, eps) + (if e.dsts != {} then {EntryKey(e, eps)} else {})
  {
  }

  /** A key no entry produces collects no destinations. */
  lemma DstsForMissing(done: set<Entry>, k: (string, Label), eps: string)
    requires k !in KeysOf(done, eps)
    ensures DstsFor(done, k, eps) == {}
  {
  }

  /** The destinations that a key collects once one more entry is loaded. */
  lemma DstsForStep(done: set<Entry>, e: Entry, j: (string, Label), eps: string)
    ensures var t := TransitionsOf(done, eps);
      DstsFor(done + {e}, j, eps) ==
        (if j in t then t[j] else {}) + (if EntryKey(e, eps) == j then e.dsts else {})
  {
    DstsForAdd(done, e, j, eps);
    if j !in KeysOf(done, eps) {
      DstsForMissing(done, j, eps);
    }
  }

  lemma LoadStep(done: set<Entry>, e: Entry, eps: string)
    ensures TransitionsOf(done + {e}, eps) ==
      var t := TransitionsOf(done, eps);
      var k := EntryKey(e, eps);
      if e.dsts == {} then t else t[k := (if k in t then t[k] else {}) + e.dsts]
  {
    var t := TransitionsOf(done, eps);
    var k := EntryKey(e, eps);
    var expected := if e.dsts == {} then t else t[k := (if k in t then t[k] else {}) + e.dsts];
    var got := TransitionsOf(done + {e}, eps);
    KeysOfAdd(done, e, eps);
    assert got.Keys == expected.Keys;
    forall j | j in got
      ensures got[j] == expected[j]
    {
      DstsForStep(done, e, j, eps);
    }
    SameMap(got, expected);
  }

  /**
   * `from_json`'s transition loop: each entry's destinations are added under its
   * key (an entry with no destinations never touches the map).
   */
  method LoadTransitions(es: set<Entry>, eps: string) returns (t: Transitions)
    ensures t == TransitionsOf(es, eps)
  {
    t := map[];
    var done: set<Entry> := {};
    var todo := es;
    SameMap(t, TransitionsOf(done, eps));
    while todo != {}
      invariant todo == es - done && done <= es
      invariant t == TransitionsOf(done, eps)
      decreases todo
    {
      var e :| e in todo;
      LoadStep(done, e, eps);
      var k := (e.src, ToLabel(e.symbol, eps));
      if e.dsts != {} {
        t := t[k := (if k in t then t[k] else {}) + e.dsts];
      }
      done, todo := done + {e}, todo - {e};
    }
    assert done == es;
  }
}
