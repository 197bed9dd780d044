/**
 * The minimisation that both finite-automaton engines run on a deterministic
 * automaton: completion with an error state, partition refinement of the states
 * (blocks split by the states whose move on a symbol lands in a splitter), and
 * the quotient automaton whose states are the named blocks. The engines differ
 * in the symbols they complete over and in their epsilon literal, so both are
 * parameters here.
 */
module Minimization {
  import opened Symbols
  import opened NfaSpec
  import opened Names
  import opened Subsets

  /** The name of the sink state that completion adds. */
  const ErrorState: string := "_error"

  // ---------------------------------------------------------------------------
  // Completion
  // ---------------------------------------------------------------------------

  /** The key of every state of `sts` with every symbol of `syms`. */
  function KeysFor(sts: set<string>, syms: set<string>, eps: string): set<(string, Label)>
  {
    set s, c | s in sts && c in syms :: (s, ToLabel(c, eps))
  }

  /** `t` with every key of `keys` that it lacks sent to `{d}`. */
  function FillMissing(t: Transitions, keys: set<(string, Label)>, d: string): (r: Transitions)
    ensures r.Keys == t.Keys + keys
  {
    map k | k in t.Keys + keys :: if k in t then t[k] else {d}
  }

  /** The symbols of the keys that filling adds: those `add_transition` puts in the alphabet. */
  function AddedLabels(t: Transitions, keys: set<(string, Label)>): set<string>
  {
    set k | k in keys && k !in t && k.1.Sym? :: k.1.text
  }

  /**
   * Filling leaves the present keys alone, adds each missing key with the one
   * destination `d`, and adds nothing else.
   */
  lemma FillMissingSpec(t: Transitions, keys: set<(string, Label)>, d: string)
    ensures forall k :: k in t ==> k in FillMissing(t, keys, d) && FillMissing(t, keys, d)[k] == t[k]
    ensures forall k :: k in keys && k !in t ==> k in FillMissing(t, keys, d) && FillMissing(t, keys, d)[k] == {d}
    ensures forall k :: k in FillMissing(t, keys, d) ==> k in t || k in keys
  {
  }

  /** When no key is missing, filling changes nothing. */
  lemma FillNothingMissing(t: Transitions, keys: set<(string, Label)>, d: string)
    requires keys <= t.Keys
    ensures FillMissing(t, keys, d) == t
  {
    SameMap(FillMissing(t, keys, d), t);
  }

  /** Filling keeps one destination per key, non-empty sets, and the states. */
  lemma FillMissingKeeps(t: Transitions, keys: set<(string, Label)>, d: string, sts: set<string>)
    ensures NoEmptyTargets(t) ==> NoEmptyTargets(FillMissing(t, keys, d))
    ensures (forall k :: k in t ==> |t[k]| == 1) ==> forall k :: k in FillMissing(t, keys, d) ==> |FillMissing(t, keys, d)[k]| == 1
    ensures WithinStates(t, sts) && d in sts && (forall k :: k in keys ==> k.0 in sts) ==> WithinStates(FillMissing(t, keys, d), sts)
  {
  }

  /** Keys built with `ToLabel` never carry a symbol spelling the epsilon literal. */
  lemma KeysForProper(sts: set<string>, syms: set<string>, eps: string)
    ensures forall k :: k in KeysFor(sts, syms, eps) ==> k.0 in sts && ProperLabel(k.1, eps)
  {
  }

  /** One more key: filling it as well. */
  lemma FillStep(t: Transitions, keys: set<(string, Label)>, d: string, cur: Transitions, k: (string, Label))
    requires cur == FillMissing(t, keys, d)
    ensures k in cur ==> FillMissing(t, keys + {k}, d) == cur
    ensures k !in cur ==> FillMissing(t, keys + {k}, d) == cur[k := {d}]
    ensures k in cur ==> AddedLabels(t, keys + {k}) == AddedLabels(t, keys)
    ensures k !in cur ==> AddedLabels(t, keys + {k}) == AddedLabels(t, keys) + (if k.1.Sym? then {k.1.text} else {})
  {
    if k in cur {
      SameMap(FillMissing(t, keys + {k}, d), cur);
    } else {
      SameMap(FillMissing(t, keys + {k}, d), cur[k := {d}]);
    }
  }

  /** The keys of one more symbol of a state. */
  lemma KeysForSym(s: string, part: set<string>, c: string, eps: string)
    ensures KeysFor({s}, part + {c}, eps) == KeysFor({s}, part, eps) + {(s, ToLabel(c, eps))}
  {
  }

  /** The keys filled so far in a row, after one more symbol. */
  lemma KeysNext(base: set<(string, Label)>, s: string, syms: set<string>, rest: set<string>, c: string, eps: string,
                 keys: set<(string, Label)>)
    requires c in rest && rest <= syms && keys == base + KeysFor({s}, syms - rest, eps)
    ensures keys + {(s, ToLabel(c, eps))} == base + KeysFor({s}, syms - (rest - {c}), eps)
  {
    KeysForSym(s, syms - rest, c, eps);
    assert syms - (rest - {c}) == (syms - rest) + {c};
  }

  /** The keys of one more state. */
  lemma KeysForState(done: set<string>, s: string, syms: set<string>, eps: string)
    ensures KeysFor(done + {s}, syms, eps) == KeysFor(done, syms, eps) + KeysFor({s}, syms, eps)
  {
  }

  /** Whether state `s` lacks a transition on some symbol of `syms`. */
  method RowMissing(t: Transitions, s: string, syms: set<string>, eps: string) returns (found: bool)
    ensures found <==> !(KeysFor({s}, syms, eps) <= t.Keys)
  {
    var rest := syms;
    while rest != {}
      invariant rest <= syms
      invariant KeysFor({s}, syms - rest, eps) <= t.Keys
      decreases rest
    {
      var c :| c in rest;
      KeysForSym(s, syms - rest, c, eps);
      if (s, ToLabel(c, eps)) !in t {
        return true;
      }
      assert syms - (rest - {c}) == (syms - rest) + {c};
      rest := rest - {c};
    }
    assert syms - rest == syms;
    return false;
  }

  /**
   * The search of `_make_complete` for a state lacking a transition on some
   * symbol; it stops at the first one found.
   */
  method FindMissing(t: Transitions, sts: set<string>, syms: set<string>, eps: string) returns (found: bool)
    ensures found <==> !(KeysFor(sts, syms, eps) <= t.Keys)
  {
    var todo := sts;
    while todo != {}
      invariant todo <= sts
      invariant KeysFor(sts - todo, syms, eps) <= t.Keys
      decreases todo
    {
      var s :| s in todo;
      KeysForState(sts - todo, s, syms, eps);
      assert sts - (todo - {s}) == (sts - todo) + {s};
      assert KeysFor({s}, syms, eps) <= KeysFor(sts, syms, eps);
      found := RowMissing(t, s, syms, eps);
      if found {
        var k :| k in KeysFor({s}, syms, eps) && k !in t;
        assert k in KeysFor(sts, syms, eps);
        return;
      }
      todo := todo - {s};
    }
    assert sts - todo == sts;
    found := false;
  }

  /** `cur` and `alph` are the map and alphabet after filling the keys of `keys`. */
  ghost predicate Filled(t: Transitions, alphabet: set<string>, keys: set<(string, Label)>, d: string,
                         cur: Transitions, alph: set<string>)
  {
    cur == FillMissing(t, keys, d) && alph == alphabet + AddedLabels(t, keys)
  }

  /** Filling key `k` next: added, with its symbol, only when it is still missing. */
  lemma FillOne(t: Transitions, alphabet: set<string>, keys: set<(string, Label)>, d: string,
                cur: Transitions, alph: set<string>, k: (string, Label), cur': Transitions, alph': set<string>)
    requires Filled(t, alphabet, keys, d, cur, alph)
    requires cur' == (if k in cur then cur else cur[k := {d}])
    requires alph' == (if k in cur || k.1.Eps? then alph else alph + {k.1.text})
    ensures Filled(t, alphabet, keys + {k}, d, cur', alph')
  {
    FillStep(t, keys, d, cur, k);
  }

  /** The fill of one state: every symbol it lacks goes to `d`. */
  method FillRow(t: Transitions, alphabet: set<string>, ghost base: set<(string, Label)>, cur: Transitions, alph: set<string>,
                 s: string, syms: set<string>, eps: string, d: string)
    returns (cur': Transitions, alph': set<string>)
    requires Filled(t, alphabet, base, d, cur, alph)
    ensures Filled(t, alphabet, base + KeysFor({s}, syms, eps), d, cur', alph')
  {
    cur', alph' := cur, alph;
    ghost var keys := base;
    var rest := syms;
    assert base + KeysFor({s}, {}, eps) == base;
    while rest != {}
      invariant rest <= syms
      invariant keys == base + KeysFor({s}, syms - rest, eps)
      invariant Filled(t, alphabet, keys, d, cur', alph')
      decreases rest
    {
      var c :| c in rest;
      var k := (s, ToLabel(c, eps));
      ghost var (cur0, alph0) := (cur', alph');
      if k !in cur' {
        if c != eps {
          alph' := alph' + {c};
        }
        AddTargetFresh(cur', k, d);
        cur' := AddTarget(cur', k, d);
      }
      FillOne(t, alphabet, keys, d, cur0, alph0, k, cur', alph');
      KeysNext(base, s, syms, rest, c, eps, keys);
      keys := keys + {k};
      rest := rest - {c};
    }
    assert syms - rest == syms;
  }

  /**
   * The filling loop of `_make_complete`: for every state and symbol without a
   * transition, `add_transition(s, sym, d)`, which also puts the symbol in the
   * alphabet unless it is the empty move.
   */
  method FillLoop(t: Transitions, alphabet: set<string>, sts: set<string>, syms: set<string>, eps: string, d: string)
    returns (t': Transitions, alphabet': set<string>)
    ensures t' == FillMissing(t, KeysFor(sts, syms, eps), d)
    ensures alphabet' == alphabet + AddedLabels(t, KeysFor(sts, syms, eps))
  {
    t', alphabet' := t, alphabet;
    var todo := sts;
    ghost var done: set<string> := {};
    assert KeysFor(done, syms, eps) == {};
    SameMap(FillMissing(t, {}, d), t);
    while todo != {}
      invariant done + todo == sts
      invariant Filled(t, alphabet, KeysFor(done, syms, eps), d, t', alphabet')
      decreases todo
    {
      var s :| s in todo;
      t', alphabet' := FillRow(t, alphabet, KeysFor(done, syms, eps), t', alphabet', s, syms, eps, d);
      KeysForState(done, s, syms, eps);
      done := done + {s};
      todo := todo - {s};
    }
    assert done == sts;
  }

  // ---------------------------------------------------------------------------
  // Partitions
  // ---------------------------------------------------------------------------

  /** All the states in the blocks of `p`. */
  function UnionOf(p: seq<set<string>>): set<string>
    decreases |p|
  {
    if p == [] then {} else p[0] + UnionOf(p[1..])
  }

  /** No state lies in two blocks. */
  ghost predicate Disjoint(p: seq<set<string>>)
    decreases |p|
  {
    p == [] || (p[0] * UnionOf(p[1..]) == {} && Disjoint(p[1..]))
  }

  /** The number of non-empty blocks. */
  function CountNonEmpty(p: seq<set<string>>): nat
    decreases |p|
  {
    if p == [] then 0 else (if p[0] != {} then 1 else 0) + CountNonEmpty(p[1..])
  }

  /** The blocks of `p` split `u`: disjoint, and together they hold exactly `u`. */
  ghost predicate Partition(p: seq<set<string>>, u: set<string>)
  {
    Disjoint(p) && UnionOf(p) == u
  }

  /** No block mixes a final state with a non-final one. */
  ghost predicate Respects(p: seq<set<string>>, fin: set<string>)
  {
    forall i :: 0 <= i < |p| ==> p[i] <= fin || p[i] * fin == {}
  }

  lemma {:induction false} UnionOfAppend(a: seq<set<string>>, b: seq<set<string>>)
    ensures UnionOf(a + b) == UnionOf(a) + UnionOf(b)
    decreases |a|
  {
    if a != [] {
      assert (a + b)[1..] == a[1..] + b;
      UnionOfAppend(a[1..], b);
    } else {
      assert a + b == b;
    }
  }

  lemma {:induction false} DisjointAppend(a: seq<set<string>>, b: seq<set<string>>)
    requires Disjoint(a) && Disjoint(b) && UnionOf(a) * UnionOf(b) == {}
    ensures Disjoint(a + b)
    decreases |a|
  {
    if a != [] {
      assert (a + b)[1..] == a[1..] + b;
      UnionOfAppend(a[1..], b);
      DisjointAppend(a[1..], b);
    } else {
      assert a + b == b;
    }
  }

  lemma {:induction false} CountAppend(a: seq<set<string>>, b: seq<set<string>>)
    ensures CountNonEmpty(a + b) == CountNonEmpty(a) + CountNonEmpty(b)
    decreases |a|
  {
    if a != [] {
      assert (a + b)[1..] == a[1..] + b;
      CountAppend(a[1..], b);
    } else {
      assert a + b == b;
    }
  }

  /** Disjoint blocks have no more non-empty blocks than states. */
  lemma {:induction false} CountBound(p: seq<set<string>>)
    requires Disjoint(p)
    ensures CountNonEmpty(p) <= |UnionOf(p)|
    decreases |p|
  {
    if p != [] {
      CountBound(p[1..]);
    }
  }

  /** A block is in a partition's union, and so is each of its members. */
  lemma {:induction false} BlockInUnion(p: seq<set<string>>, i: nat)
    requires i < |p|
    ensures p[i] <= UnionOf(p)
    decreases i
  {
    if i > 0 {
      BlockInUnion(p[1..], i - 1);
    }
  }

  /** A state in the union lies in some block. */
  lemma {:induction false} UnionHasBlock(p: seq<set<string>>, x: string)
    requires x in UnionOf(p)
    ensures exists i :: 0 <= i < |p| && x in p[i]
    decreases |p|
  {
    if x !in p[0] {
      UnionHasBlock(p[1..], x);
      var i :| 0 <= i < |p[1..]| && x in p[1..][i];
      assert x in p[i + 1];
    }
  }

  /** In disjoint blocks a state lies in one block only. */
  lemma {:induction false} DisjointBlocks(p: seq<set<string>>, i: nat, j: nat)
    requires Disjoint(p) && i < j < |p|
    ensures p[i] * p[j] == {}
    decreases i
  {
    if i == 0 {
      BlockInUnion(p[1..], j - 1);
    } else {
      DisjointBlocks(p[1..], i - 1, j - 1);
    }
  }

  // ---------------------------------------------------------------------------
  // Refinement
  // ---------------------------------------------------------------------------

  /**
   * `X`: the states of `sts` whose move on `l` lands in `A`. The engines test the
   * one destination of the key; on a map with one destination per key that is
   * the same as the destinations meeting `A`.
   */
  function Splitter(sts: set<string>, t: Transitions, l: Label, A: set<string>): (x: set<string>)
    ensures x <= sts
  {
    set q | q in sts && (q, l) in t && t[(q, l)] * A != {}
  }

  /** What replaces block `Y`: `Y ∩ X` and `Y - X` when both are non-empty, else `Y` itself. */
  function SplitBlock(y: set<string>, x: set<string>): seq<set<string>>
  {
    if y * x != {} && y - x != {} then [y * x, y - x] else [y]
  }

  /** `new_P` after the loop over the blocks: every block replaced by its split. */
  function Refine(p: seq<set<string>>, x: set<string>): seq<set<string>>
    decreases |p|
  {
    if p == [] then [] else SplitBlock(p[0], x) + Refine(p[1..], x)
  }

  /** `W.remove(y)`: drops the first occurrence. */
  function RemoveFirst(w: seq<set<string>>, y: set<string>): (r: seq<set<string>>)
    requires y in w
    ensures |r| == |w| - 1
    decreases |w|
  {
    if w[0] == y then w[1..] else [w[0]] + RemoveFirst(w[1..], y)
  }

  /**
   * The work list after splitting block `y`: a block still waiting is replaced by
   * both halves, otherwise the smaller half (the intersection on a tie) is added.
   */
  function WorkStep(w: seq<set<string>>, y: set<string>, x: set<string>): seq<set<string>>
  {
    var inter, diff := y * x, y - x;
    if inter != {} && diff != {} then
      if y in w then RemoveFirst(w, y) + [inter, diff]
      else if |inter| <= |diff| then w + [inter]
      else w + [diff]
    else w
  }

  /** The work list after the loop over the blocks of `p`, in order. */
  function WorkFold(p: seq<set<string>>, x: set<string>, w: seq<set<string>>): seq<set<string>>
    decreases |p|
  {
    if p == [] then w else WorkFold(p[1..], x, WorkStep(w, p[0], x))
  }

  /** No block of `p` is split by `x`. */
  ghost predicate NoSplit(p: seq<set<string>>, x: set<string>)
  {
    forall i :: 0 <= i < |p| ==> p[i] * x == {} || p[i] - x == {}
  }

  /** One block's split holds the block's states, apart, and keeps finals apart when the block does. */
  lemma SplitBlockSpec(y: set<string>, x: set<string>, fin: set<string>)
    ensures UnionOf(SplitBlock(y, x)) == y
    ensures Disjoint(SplitBlock(y, x))
    ensures CountNonEmpty(SplitBlock(y, x)) >= (if y != {} then 1 else 0)
    ensures y * x != {} && y - x != {} ==> CountNonEmpty(SplitBlock(y, x)) == 2
    ensures (y <= fin || y * fin == {}) ==> Respects(SplitBlock(y, x), fin)
  {
    var h := SplitBlock(y, x);
    if y * x != {} && y - x != {} {
      assert h[1..] == [y - x] && h[1..][1..] == [];
      assert UnionOf(h[1..]) == y - x;
      assert CountNonEmpty(h[1..]) == 1;
      assert y * x + (y - x) == y;
    } else {
      assert h[1..] == [];
    }
  }

  /** Splitting keeps the states, keeps them in one block each, and keeps finals apart. */
  lemma {:induction false} RefineKeepsPartition(p: seq<set<string>>, x: set<string>, fin: set<string>)
    ensures UnionOf(Refine(p, x)) == UnionOf(p)
    ensures Disjoint(p) ==> Disjoint(Refine(p, x))
    ensures Respects(p, fin) ==> Respects(Refine(p, x), fin)
    decreases |p|
  {
    if p != [] {
      var head, tail := SplitBlock(p[0], x), Refine(p[1..], x);
      RefineKeepsPartition(p[1..], x, fin);
      SplitBlockSpec(p[0], x, fin);
      UnionOfAppend(head, tail);
      if Disjoint(p) {
        DisjointAppend(head, tail);
      }
      if Respects(p, fin) {
        assert Respects(p[1..], fin) by {
          forall i | 0 <= i < |p[1..]|
            ensures p[1..][i] <= fin || p[1..][i] * fin == {}
          {
            assert p[1..][i] == p[i + 1];
          }
        }
        RespectsAppend(head, tail, fin);
      }
    }
  }

  lemma RespectsAppend(a: seq<set<string>>, b: seq<set<string>>, fin: set<string>)
    requires Respects(a, fin) && Respects(b, fin)
    ensures Respects(a + b, fin)
  {
    forall i | 0 <= i < |a + b|
      ensures (a + b)[i] <= fin || (a + b)[i] * fin == {}
    {
      if i >= |a| {
        assert (a + b)[i] == b[i - |a|];
      } else {
        assert (a + b)[i] == a[i];
      }
    }
  }

  /** Without a split, neither the blocks nor the work list change. */
  lemma {:induction false} NoSplitChangesNothing(p: seq<set<string>>, x: set<string>, w: seq<set<string>>)
    requires NoSplit(p, x)
    ensures Refine(p, x) == p && WorkFold(p, x, w) == w
    decreases |p|
  {
    if p != [] {
      assert NoSplit(p[1..], x) by {
        forall i | 0 <= i < |p[1..]|
          ensures p[1..][i] * x == {} || p[1..][i] - x == {}
        {
          assert p[1..][i] == p[i + 1];
        }
      }
      assert p[0] * x == {} || p[0] - x == {};
      NoSplitChangesNothing(p[1..], x, w);
      assert p == [p[0]] + p[1..];
    }
  }

  /** A split adds a non-empty block. */
  lemma {:induction false} SplitCounts(p: seq<set<string>>, x: set<string>)
    ensures CountNonEmpty(Refine(p, x)) >= CountNonEmpty(p)
    ensures !NoSplit(p, x) ==> CountNonEmpty(Refine(p, x)) > CountNonEmpty(p)
    decreases |p|
  {
    if p != [] {
      var head, tail := SplitBlock(p[0], x), Refine(p[1..], x);
      SplitCounts(p[1..], x);
      CountAppend(head, tail);
      SplitBlockSpec(p[0], x, {});
      if !NoSplit(p, x) {
        var i :| 0 <= i < |p| && p[i] * x != {} && p[i] - x != {};
        if i > 0 {
          assert p[1..][i - 1] == p[i];
          assert !NoSplit(p[1..], x);
        }
      }
    }
  }

  lemma AppendAssoc(a: seq<set<string>>, b: seq<set<string>>, c: seq<set<string>>)
    ensures a + b + c == a + (b + c)
  {
  }

  /** The block at position `i` is the next one the loop over the blocks treats. */
  lemma RefineStep(p: seq<set<string>>, i: nat, x: set<string>, w: seq<set<string>>)
    requires i < |p|
    ensures Refine(p[i..], x) == SplitBlock(p[i], x) + Refine(p[i + 1..], x)
    ensures WorkFold(p[i..], x, w) == WorkFold(p[i + 1..], x, WorkStep(w, p[i], x))
  {
    assert p[i..][1..] == p[i + 1..];
  }

  /**
   * The loop over the blocks for one splitter `x`: builds `new_P` and updates the
   * work list block by block.
   */
  method SplitAll(p: seq<set<string>>, x: set<string>, w0: seq<set<string>>)
    returns (p': seq<set<string>>, w: seq<set<string>>)
    ensures p' == Refine(p, x) && w == WorkFold(p, x, w0)
  {
    p', w := [], w0;
    var i := 0;
    while i < |p|
      invariant 0 <= i <= |p|
      invariant p' + Refine(p[i..], x) == Refine(p, x)
      invariant WorkFold(p[i..], x, w) == WorkFold(p, x, w0)
      decreases |p| - i
    {
      var y := p[i];
      RefineStep(p, i, x, w);
      ghost var w1, prev, rest := WorkStep(w, y, x), p', Refine(p[i + 1..], x);
      var inter, diff := y * x, y - x;
      if inter != {} && diff != {} {
        p' := p' + [inter, diff];
        if y in w {
          w := RemoveFirst(w, y) + [inter, diff];
        } else if |inter| <= |diff| {
          w := w + [inter];
        } else {
          w := w + [diff];
        }
      } else {
        p' := p' + [y];
      }
      assert w == w1;
      assert p' == prev + SplitBlock(y, x);
      AppendAssoc(prev, SplitBlock(y, x), rest);
      assert p' + rest == prev + Refine(p[i..], x);
      i := i + 1;
    }
    assert p[i..] == [];
  }

  // ---------------------------------------------------------------------------
  // What the refinement establishes
  // ---------------------------------------------------------------------------

  /** `x` and `y` lie in one block of `p`. */
  ghost predicate SameBlock(p: seq<set<string>>, x: string, y: string)
  {
    exists i :: 0 <= i < |p| && x in p[i] && y in p[i]
  }

  /** Some set of `gs` holds exactly one of `x` and `y`. */
  ghost predicate Separated(x: string, y: string, gs: seq<set<string>>)
  {
    exists g :: g in gs && ((x in g) != (y in g))
  }

  /** States of `u` in different blocks of `p` are told apart by some set of `gs`. */
  ghost predicate Apart(p: seq<set<string>>, u: set<string>, gs: seq<set<string>>)
  {
    forall x, y :: x in u && y in u && !SameBlock(p, x, y) ==> Separated(x, y, gs)
  }

  /** No symbol's splitter for `a` cuts a block of `p`: the blocks are stable for `a`. */
  ghost predicate StableFor(p: seq<set<string>>, a: set<string>, sts: set<string>, t: Transitions,
                            syms: set<string>, eps: string)
  {
    forall c :: c in syms ==> NoSplit(p, Splitter(sts, t, ToLabel(c, eps), a))
  }

  /** `W.remove(y)` keeps every other set of the list. */
  lemma {:induction false} RemoveFirstKeeps(w: seq<set<string>>, y: set<string>, g: set<string>)
    requires y in w && g in w && g != y
    ensures g in RemoveFirst(w, y)
    decreases |w|
  {
    if w[0] != y && g != w[0] {
      RemoveFirstKeeps(w[1..], y, g);
    }
  }

  /**
   * The work list after a block keeps every separation the list made before:
   * a removed block comes back as its two halves, one of which still tells the
   * two states apart.
   */
  lemma WorkStepKeepsSeparated(w: seq<set<string>>, y: set<string>, x: set<string>, a: string, b: string)
    requires Separated(a, b, w)
    ensures Separated(a, b, WorkStep(w, y, x))
  {
    var inter, diff := y * x, y - x;
    var g :| g in w && ((a in g) != (b in g));
    if inter != {} && diff != {} {
      if y in w {
        var r := RemoveFirst(w, y) + [inter, diff];
        assert inter in r && diff in r;
        if g != y {
          RemoveFirstKeeps(w, y, g);
          assert g in r;
        } else if (a in inter) != (b in inter) {
          assert Separated(a, b, r);
        } else {
          assert (a in diff) != (b in diff);
        }
      } else {
        assert g in WorkStep(w, y, x);
      }
    }
  }

  /** The whole loop over the blocks keeps every separation of the work list. */
  lemma {:induction false} WorkFoldKeepsSeparated(p: seq<set<string>>, x: set<string>, w: seq<set<string>>,
                                                  a: string, b: string)
    requires Separated(a, b, w)
    ensures Separated(a, b, WorkFold(p, x, w))
    decreases |p|
  {
    if p != [] {
      WorkStepKeepsSeparated(w, p[0], x, a, b);
      WorkFoldKeepsSeparated(p[1..], x, WorkStep(w, p[0], x), a, b);
    }
  }

  /** A split block puts a half on the work list: the halves or the smaller one. */
  lemma HalvesSeparated(w: seq<set<string>>, y: set<string>, x: set<string>, a: string, b: string)
    requires y * x != {} && y - x != {} && a in y && b in y && (a in x) != (b in x)
    ensures Separated(a, b, WorkStep(w, y, x))
  {
    var r := WorkStep(w, y, x);
    if y in w {
      assert y * x in r;
    } else if |y * x| <= |y - x| {
      assert y * x in r;
    } else {
      assert y - x in r;
    }
  }

  lemma SameBlockShift(head: seq<set<string>>, tail: seq<set<string>>, a: string, b: string)
    requires SameBlock(tail, a, b)
    ensures SameBlock(head + tail, a, b)
  {
    var j :| 0 <= j < |tail| && a in tail[j] && b in tail[j];
    assert (head + tail)[|head| + j] == tail[j];
  }

  /**
   * Two states of one block that the split separates are told apart by the new
   * work list.
   */
  lemma {:induction false} SplitSeparates(p: seq<set<string>>, x: set<string>, w: seq<set<string>>, a: string, b: string)
    requires SameBlock(p, a, b)
    ensures SameBlock(Refine(p, x), a, b) || Separated(a, b, WorkFold(p, x, w))
    decreases |p|
  {
    var head, tail := SplitBlock(p[0], x), Refine(p[1..], x);
    var w1 := WorkStep(w, p[0], x);
    assert Refine(p, x) == head + tail;
    if a in p[0] && b in p[0] {
      if p[0] * x != {} && p[0] - x != {} {
        if (a in x) != (b in x) {
          HalvesSeparated(w, p[0], x, a, b);
          WorkFoldKeepsSeparated(p[1..], x, w1, a, b);
        } else if a in x {
          assert (head + tail)[0] == p[0] * x;
        } else {
          assert (head + tail)[1] == p[0] - x;
        }
      } else {
        assert (head + tail)[0] == p[0];
      }
    } else {
      var i :| 0 <= i < |p| && a in p[i] && b in p[i];
      assert p[1..][i - 1] == p[i];
      SplitSeparates(p[1..], x, w1, a, b);
      if SameBlock(tail, a, b) {
        SameBlockShift(head, tail, a, b);
      }
    }
  }

  /** One splitter keeps states of different blocks apart, by the old sets or the new work list. */
  lemma RefineKeepsApart(p: seq<set<string>>, x: set<string>, w: seq<set<string>>, u: set<string>, gs: seq<set<string>>)
    requires Apart(p, u, gs + w)
    ensures Apart(Refine(p, x), u, gs + WorkFold(p, x, w))
  {
    var w' := WorkFold(p, x, w);
    forall a, b | a in u && b in u && !SameBlock(Refine(p, x), a, b)
      ensures Separated(a, b, gs + w')
    {
      if SameBlock(p, a, b) {
        SplitSeparates(p, x, w, a, b);
        var g :| g in w' && ((a in g) != (b in g));
        assert g in gs + w';
      } else {
        var g :| g in gs + w && ((a in g) != (b in g));
        if g in gs {
          assert g in gs + w';
        } else {
          assert Separated(a, b, w);
          WorkFoldKeepsSeparated(p, x, w, a, b);
          var g' :| g' in w' && ((a in g') != (b in g'));
          assert g' in gs + w';
        }
      }
    }
  }

  lemma NoSplitAppend(a: seq<set<string>>, b: seq<set<string>>, z: set<string>)
    requires NoSplit(a, z) && NoSplit(b, z)
    ensures NoSplit(a + b, z)
  {
    forall i | 0 <= i < |a + b|
      ensures (a + b)[i] * z == {} || (a + b)[i] - z == {}
    {
      if i < |a| {
        assert (a + b)[i] == a[i];
      } else {
        assert (a + b)[i] == b[i - |a|];
      }
    }
  }

  /**
   * After splitting by `x` no block is cut by `x`, and no block is cut by a set
   * that cut no block before.
   */
  lemma {:induction false} RefineNoSplit(p: seq<set<string>>, x: set<string>, z: set<string>)
    ensures NoSplit(Refine(p, x), x)
    ensures NoSplit(p, z) ==> NoSplit(Refine(p, x), z)
    decreases |p|
  {
    if p != [] {
      var head, tail := SplitBlock(p[0], x), Refine(p[1..], x);
      RefineNoSplit(p[1..], x, z);
      assert NoSplit(head, x);
      NoSplitAppend(head, tail, x);
      if NoSplit(p, z) {
        assert NoSplit(p[1..], z) by {
          forall i | 0 <= i < |p[1..]|
            ensures p[1..][i] * z == {} || p[1..][i] - z == {}
          {
            assert p[1..][i] == p[i + 1];
          }
        }
        assert p[0] * z == {} || p[0] - z == {};
        assert NoSplit(head, z);
        NoSplitAppend(head, tail, z);
      }
    }
  }

  /** A splitter stable for the blocks stays stable for any refinement of them. */
  lemma StableForRefine(p: seq<set<string>>, x: set<string>, g: set<string>, sts: set<string>, t: Transitions,
                        syms: set<string>, eps: string)
    requires StableFor(p, g, sts, t, syms, eps)
    ensures StableFor(Refine(p, x), g, sts, t, syms, eps)
  {
    forall c | c in syms
      ensures NoSplit(Refine(p, x), Splitter(sts, t, ToLabel(c, eps), g))
    {
      RefineNoSplit(p, x, Splitter(sts, t, ToLabel(c, eps), g));
    }
  }

  /**
   * What holds during a pass with splitter `a`: the splitters popped before are
   * stable, the symbols `done` no longer split by `a`, and states of different
   * blocks are told apart by the popped splitters, `a` or the work list.
   */
  ghost predicate RoundInv(p: seq<set<string>>, w: seq<set<string>>, u: set<string>, sts: set<string>, t: Transitions,
                           syms: set<string>, eps: string, popped: seq<set<string>>, a: set<string>, done: set<string>)
  {
    && (forall g :: g in popped ==> StableFor(p, g, sts, t, syms, eps))
    && (forall c :: c in done ==> NoSplit(p, Splitter(sts, t, ToLabel(c, eps), a)))
    && Apart(p, u, popped + [a] + w)
  }

  /** Splitting by the splitter of symbol `c` keeps the pass invariant, with `c` done. */
  lemma RoundStep(p: seq<set<string>>, w: seq<set<string>>, u: set<string>, sts: set<string>, t: Transitions,
                  syms: set<string>, eps: string, popped: seq<set<string>>, a: set<string>, done: set<string>, c: string)
    requires RoundInv(p, w, u, sts, t, syms, eps, popped, a, done)
    ensures var x := Splitter(sts, t, ToLabel(c, eps), a);
      RoundInv(Refine(p, x), WorkFold(p, x, w), u, sts, t, syms, eps, popped, a, done + {c})
  {
    var x := Splitter(sts, t, ToLabel(c, eps), a);
    forall g | g in popped
      ensures StableFor(Refine(p, x), g, sts, t, syms, eps)
    {
      StableForRefine(p, x, g, sts, t, syms, eps);
    }
    forall c' | c' in done + {c}
      ensures NoSplit(Refine(p, x), Splitter(sts, t, ToLabel(c', eps), a))
    {
      RefineNoSplit(p, x, Splitter(sts, t, ToLabel(c', eps), a));
    }
    RefineKeepsApart(p, x, w, u, popped + [a]);
  }

  /** The first blocks: states in different blocks differ on being final, and the waiting set is one of the two. */
  lemma InitialApart(sts: set<string>, fin: set<string>, w: seq<set<string>>)
    requires w == [fin] || w == [sts - fin]
    ensures Apart([fin, sts - fin], sts + fin, [] + w)
  {
    var p := [fin, sts - fin];
    forall x, y | x in sts + fin && y in sts + fin
      ensures SameBlock(p, x, y) || Separated(x, y, [] + w)
    {
      if x in fin && y in fin {
        assert x in p[0] && y in p[0];
      } else if x !in fin && y !in fin {
        assert x in p[1] && y in p[1];
      } else {
        assert w[0] in [] + w;
      }
    }
  }

  /** Every state of `sts` has a key on the symbol, or none has: completion makes this so. */
  ghost predicate Uniform(t: Transitions, sts: set<string>, syms: set<string>, eps: string)
  {
    forall c :: c in syms ==>
      (forall q :: q in sts ==> (q, ToLabel(c, eps)) in t) || (forall q :: q in sts ==> (q, ToLabel(c, eps)) !in t)
  }

  /** Both states have the `l`-key or neither has, and then their destinations share a block. */
  ghost predicate AgreeOn(p: seq<set<string>>, t: Transitions, q1: string, q2: string, l: Label)
  {
    && ((q1, l) in t <==> (q2, l) in t)
    && ((q1, l) in t && (q2, l) in t ==>
          forall d1, d2 :: d1 in t[(q1, l)] && d2 in t[(q2, l)] ==> SameBlock(p, d1, d2))
  }

  /** The blocks are stable: any two states of a block agree on every symbol. */
  ghost predicate Congruent(p: seq<set<string>>, t: Transitions, syms: set<string>, eps: string)
  {
    forall i, q1, q2, c {:trigger AgreeOn(p, t, q1, q2, ToLabel(c, eps)), p[i]} ::
      0 <= i < |p| && q1 in p[i] && q2 in p[i] && c in syms ==> AgreeOn(p, t, q1, q2, ToLabel(c, eps))
  }

  /**
   * Two states of a block have destinations in one block: destinations in
   * different blocks would be told apart by a stable splitter, which would then
   * cut the block.
   */
  lemma TargetsTogether(p: seq<set<string>>, sts: set<string>, t: Transitions, syms: set<string>, eps: string,
                        popped: seq<set<string>>, i: nat, q1: string, q2: string, c: string, d1: string, d2: string)
    requires forall g :: g in popped ==> StableFor(p, g, sts, t, syms, eps)
    requires Apart(p, sts, popped) && SingleTargets(t) && WithinStates(t, sts)
    requires i < |p| && q1 in p[i] && q2 in p[i] && q1 in sts && q2 in sts && c in syms
    requires (q1, ToLabel(c, eps)) in t && (q2, ToLabel(c, eps)) in t
    requires d1 in t[(q1, ToLabel(c, eps))] && d2 in t[(q2, ToLabel(c, eps))]
    ensures SameBlock(p, d1, d2)
  {
    var l := ToLabel(c, eps);
    SingletonIs(t[(q1, l)], d1);
    SingletonIs(t[(q2, l)], d2);
    forall g | g in popped
      ensures (d1 in g) == (d2 in g)
    {
      assert NoSplit(p, Splitter(sts, t, l, g));
      NotSeparatedBy(p, sts, t, l, g, i, q1, q2, d1, d2);
    }
    assert !Separated(d1, d2, popped);
    assert d1 in sts && d2 in sts;
  }

  /** A splitter that cuts no block cannot hold the destination of one member of a block and not of another. */
  lemma NotSeparatedBy(p: seq<set<string>>, sts: set<string>, t: Transitions, l: Label, g: set<string>, i: nat,
                       q1: string, q2: string, d1: string, d2: string)
    requires NoSplit(p, Splitter(sts, t, l, g))
    requires i < |p| && q1 in p[i] && q2 in p[i] && q1 in sts && q2 in sts
    requires (q1, l) in t && (q2, l) in t && t[(q1, l)] == {d1} && t[(q2, l)] == {d2}
    ensures (d1 in g) == (d2 in g)
  {
    var x := Splitter(sts, t, l, g);
    assert t[(q1, l)] * g == (if d1 in g then {d1} else {});
    assert t[(q2, l)] * g == (if d2 in g then {d2} else {});
    assert q1 in x <==> d1 in g;
    assert q2 in x <==> d2 in g;
    if p[i] * x == {} {
      assert q1 !in p[i] * x && q2 !in p[i] * x;
    } else {
      assert p[i] - x == {};
      assert q1 !in p[i] - x && q2 !in p[i] - x;
    }
  }

  /** Once no splitter waits, the blocks are stable. */
  lemma CongruentAtEnd(p: seq<set<string>>, sts: set<string>, fin: set<string>, t: Transitions, syms: set<string>,
                       eps: string, popped: seq<set<string>>)
    requires UnionOf(p) == sts + fin && fin <= sts
    requires forall g :: g in popped ==> StableFor(p, g, sts, t, syms, eps)
    requires Apart(p, sts + fin, popped) && SingleTargets(t) && WithinStates(t, sts) && Uniform(t, sts, syms, eps)
    ensures Congruent(p, t, syms, eps)
  {
    assert sts + fin == sts;
    forall i, q1, q2, c | 0 <= i < |p| && q1 in p[i] && q2 in p[i] && c in syms
      ensures AgreeOn(p, t, q1, q2, ToLabel(c, eps))
    {
      BlockInUnion(p, i);
      var l := ToLabel(c, eps);
      if (q1, l) in t && (q2, l) in t {
        forall d1, d2 | d1 in t[(q1, l)] && d2 in t[(q2, l)]
          ensures SameBlock(p, d1, d2)
        {
          TargetsTogether(p, sts, t, syms, eps, popped, i, q1, q2, c, d1, d2);
        }
      }
    }
  }

  /**
   * One pass of `for c in self.alphabet` with splitter block `a`: every symbol's
   * splitter refines the blocks in turn. The blocks stay a partition that keeps
   * finals apart; when no block was split, blocks and work list are as before.
   * After the pass `a` is stable, the splitters popped before stay stable, and
   * states of different blocks are still told apart by the popped splitters, `a`
   * or the work list.
   */
  method RefineRound(sts: set<string>, fin: set<string>, t: Transitions, syms: set<string>, eps: string,
                     ghost popped: seq<set<string>>, a: set<string>, p0: seq<set<string>>, w0: seq<set<string>>)
    returns (p: seq<set<string>>, w: seq<set<string>>)
    requires Partition(p0, UnionOf(p0)) && Respects(p0, fin)
    requires forall g :: g in popped ==> StableFor(p0, g, sts, t, syms, eps)
    requires Apart(p0, UnionOf(p0), popped + [a] + w0)
    ensures Partition(p, UnionOf(p0)) && Respects(p, fin)
    ensures CountNonEmpty(p) >= CountNonEmpty(p0)
    ensures CountNonEmpty(p) == CountNonEmpty(p0) ==> p == p0 && w == w0
    ensures forall g :: g in popped + [a] ==> StableFor(p, g, sts, t, syms, eps)
    ensures Apart(p, UnionOf(p0), popped + [a] + w)
  {
    p, w := p0, w0;
    var rest := syms;
    while rest != {}
      invariant rest <= syms
      invariant Partition(p, UnionOf(p0)) && Respects(p, fin)
      invariant CountNonEmpty(p) >= CountNonEmpty(p0)
      invariant CountNonEmpty(p) == CountNonEmpty(p0) ==> p == p0 && w == w0
      invariant RoundInv(p, w, UnionOf(p0), sts, t, syms, eps, popped, a, syms - rest)
      decreases rest
    {
      var c :| c in rest;
      var x := Splitter(sts, t, ToLabel(c, eps), a);
      ghost var (pb, wb) := (p, w);
      p, w := SplitAll(p, x, w);
      RefineKeepsPartition(pb, x, fin);
      SplitCounts(pb, x);
      if NoSplit(pb, x) {
        NoSplitChangesNothing(pb, x, wb);
      }
      RoundStep(pb, wb, UnionOf(p0), sts, t, syms, eps, popped, a, syms - rest, c);
      assert syms - (rest - {c}) == (syms - rest) + {c};
      rest := rest - {c};
    }
    assert syms - rest == syms;
  }

  /** The first blocks: the finals and the other states. */
  lemma InitialPartition(sts: set<string>, fin: set<string>)
    ensures Partition([fin, sts - fin], sts + fin) && Respects([fin, sts - fin], fin)
  {
    var p := [fin, sts - fin];
    assert p[1..] == [sts - fin] && p[1..][1..] == [];
    assert UnionOf(p[1..]) == sts - fin;
  }

  /**
   * The refinement loop of `minimize`: starts from the finals and the other
   * states, with the smaller of the two (the finals on a tie) waiting, and pops
   * splitters until none waits. The loop ends because each pass either splits a
   * block, of which there are at most as many as states, or shortens the work list.
   * On a complete map with one destination per key the blocks come out stable:
   * two states of one block have the same keys and their destinations share a block.
   */
  method Refinement(sts: set<string>, fin: set<string>, t: Transitions, syms: set<string>, eps: string)
    returns (p: seq<set<string>>)
    ensures Partition(p, sts + fin) && Respects(p, fin)
    ensures fin <= sts && SingleTargets(t) && WithinStates(t, sts) && Uniform(t, sts, syms, eps) ==>
      Congruent(p, t, syms, eps)
  {
    p := [fin, sts - fin];
    var w := if |fin| <= |sts - fin| then [fin] else [sts - fin];
    ghost var popped: seq<set<string>> := [];
    InitialPartition(sts, fin);
    InitialApart(sts, fin, w);
    CountBound(p);
    while w != []
      invariant Partition(p, sts + fin) && Respects(p, fin)
      invariant CountNonEmpty(p) <= |sts + fin|
      invariant forall g :: g in popped ==> StableFor(p, g, sts, t, syms, eps)
      invariant Apart(p, sts + fin, popped + w)
      decreases |sts + fin| - CountNonEmpty(p), |w|
    {
      var a := w[0];
      assert popped + w == popped + [a] + w[1..];
      w := w[1..];
      p, w := RefineRound(sts, fin, t, syms, eps, popped, a, p, w);
      popped := popped + [a];
      CountBound(p);
    }
    assert popped + w == popped;
    if fin <= sts && SingleTargets(t) && WithinStates(t, sts) && Uniform(t, sts, syms, eps) {
      CongruentAtEnd(p, sts, fin, t, syms, eps, popped);
    }
  }

  // ---------------------------------------------------------------------------
  // Dropping the error state
  // ---------------------------------------------------------------------------

  /** The blocks with the states of `drop` taken out and the blocks left empty dropped. */
  function Filtered(p: seq<set<string>>, drop: set<string>): (r: seq<set<string>>)
    ensures forall i :: 0 <= i < |r| ==> r[i] != {}
    decreases |p|
  {
    if p == [] then []
    else (if p[0] - drop != {} then [p[0] - drop] else []) + Filtered(p[1..], drop)
  }

  /**
   * Filtering keeps a partition of what is left, keeps finals apart, and a second
   * filter with nothing to drop changes nothing.
   */
  lemma {:induction false} FilteredSpec(p: seq<set<string>>, drop: set<string>, fin: set<string>)
    ensures UnionOf(Filtered(p, drop)) == UnionOf(p) - drop
    ensures Disjoint(p) ==> Disjoint(Filtered(p, drop))
    ensures Respects(p, fin) ==> Respects(Filtered(p, drop), fin)
    ensures Filtered(Filtered(p, drop), {}) == Filtered(p, drop)
    decreases |p|
  {
    if p != [] {
      var b := p[0] - drop;
      var head: seq<set<string>> := if b != {} then [b] else [];
      var tail := Filtered(p[1..], drop);
      FilteredSpec(p[1..], drop, fin);
      UnionOfAppend(head, tail);
      if b != {} {
        assert head[1..] == [];
      }
      if Disjoint(p) {
        DisjointAppend(head, tail);
      }
      if Respects(p, fin) {
        assert Respects(p[1..], fin) by {
          forall i | 0 <= i < |p[1..]|
            ensures p[1..][i] <= fin || p[1..][i] * fin == {}
          {
            assert p[1..][i] == p[i + 1];
          }
        }
        RespectsAppend(head, tail, fin);
      }
      FilterAppend(head, tail);
      if b != {} {
        assert b - {} == b;
        assert Filtered(head, {}) == head by {
          assert head[1..] == [];
        }
      }
    }
  }

  /** Blocks without `e` keep finals apart whether or not `e` counts as final. */
  lemma RespectsDrop(p: seq<set<string>>, fin: set<string>, e: string)
    requires Respects(p, fin) && e !in UnionOf(p)
    ensures Respects(p, fin - {e})
  {
    forall i | 0 <= i < |p|
      ensures p[i] <= fin - {e} || p[i] * (fin - {e}) == {}
    {
      BlockInUnion(p, i);
    }
  }

  lemma {:induction false} FilterAppend(a: seq<set<string>>, b: seq<set<string>>)
    ensures Filtered(a + b, {}) == Filtered(a, {}) + Filtered(b, {})
    decreases |a|
  {
    if a != [] {
      assert (a + b)[1..] == a[1..] + b;
      FilterAppend(a[1..], b);
    } else {
      assert a + b == b;
    }
  }

  // ---------------------------------------------------------------------------
  // The quotient automaton
  // ---------------------------------------------------------------------------

  /** The name a block gets: its sorted members, braced and comma-joined, or the one member. */
  method BlockNameOf(g: set<string>) returns (n: string)
    requires g != {}
    ensures n == BlockName(g)
  {
    var sorted := SortStrings(g);
    SortedOfSpec(g);
    if |g| > 1 {
      n := "{" + Join(sorted, ",") + "}";
    } else {
      n := sorted[0];
    }
  }

  /** The names of the blocks, in order. */
  ghost function BlockNames(p: seq<set<string>>): (nm: seq<string>)
    requires forall i :: 0 <= i < |p| ==> p[i] != {}
    ensures |nm| == |p| && forall i :: 0 <= i < |p| ==> nm[i] == BlockName(p[i])
  {
    seq(|p|, i requires 0 <= i < |p| => BlockName(p[i]))
  }

  /** The states of the first `n` blocks. */
  ghost function StatesUpTo(p: seq<set<string>>, n: nat): set<string>
    requires n <= |p|
  {
    set i, s | 0 <= i < n && s in p[i] :: s
  }

  lemma StatesOfAll(p: seq<set<string>>)
    ensures StatesUpTo(p, |p|) == UnionOf(p)
  {
    forall s | s in UnionOf(p)
      ensures s in StatesUpTo(p, |p|)
    {
      UnionHasBlock(p, s);
    }
    forall i | 0 <= i < |p|
      ensures p[i] <= UnionOf(p)
    {
      BlockInUnion(p, i);
    }
  }

  /** Every state of the first `n` blocks is mapped to its block's name. */
  ghost predicate MapsUpTo(p: seq<set<string>>, nm: seq<string>, n: nat, smap: map<string, string>)
    requires n <= |p| == |nm|
  {
    forall i, s :: 0 <= i < n && s in p[i] ==> s in smap && smap[s] == nm[i]
  }

  /** The start the `add_state` calls leave: the name of the block of `start`, else the first name. */
  ghost predicate StartUpTo(p: seq<set<string>>, nm: seq<string>, n: nat, start: Option<string>, qstart: Option<string>)
    requires n <= |p| == |nm|
  {
    && (forall i :: 0 <= i < n && start.Some? && start.value in p[i] ==> qstart == Some(nm[i]))
    && ((forall i :: 0 <= i < n ==> !(start.Some? && start.value in p[i])) ==>
          qstart == if n == 0 then None else Some(nm[0]))
  }

  /** The names of the first `n` blocks. */
  ghost function NamesUpTo(nm: seq<string>, n: nat): set<string>
    requires n <= |nm|
  {
    set i | 0 <= i < n :: nm[i]
  }

  /** The names of the blocks among the first `n` that meet `fin`. */
  ghost function FinalNamesUpTo(p: seq<set<string>>, nm: seq<string>, n: nat, fin: set<string>): set<string>
    requires n <= |p| == |nm|
  {
    set i | 0 <= i < n && p[i] * fin != {} :: nm[i]
  }

  /** Maps every state of `g` to `n`, one state at a time. */
  method MapBlock(smap0: map<string, string>, g: set<string>, n: string) returns (smap: map<string, string>)
    ensures smap.Keys == smap0.Keys + g
    ensures forall s :: s in g ==> smap[s] == n
    ensures forall s :: s in smap0 && s !in g ==> smap[s] == smap0[s]
  {
    smap := smap0;
    var todo := g;
    while todo != {}
      invariant todo <= g
      invariant smap.Keys == smap0.Keys + (g - todo)
      invariant forall s :: s in g - todo ==> smap[s] == n
      invariant forall s :: s in smap0 && s !in g ==> smap[s] == smap0[s]
      decreases todo
    {
      var s :| s in todo;
      smap := smap[s := n];
      todo := todo - {s};
    }
  }

  /** What naming the first `n` blocks has built. */
  ghost predicate NamedUpTo(p: seq<set<string>>, nm: seq<string>, n: nat, start: Option<string>, fin: set<string>,
                            smap: map<string, string>, names: set<string>, qstart: Option<string>, qfinals: set<string>)
    requires n <= |p| == |nm|
  {
    && smap.Keys == StatesUpTo(p, n) && MapsUpTo(p, nm, n, smap)
    && names == NamesUpTo(nm, n)
    && qfinals == FinalNamesUpTo(p, nm, n, fin)
    && StartUpTo(p, nm, n, start, qstart)
  }

  /** One round of the naming loop: block `i` gets its name and becomes a state. */
  method NameOne(p: seq<set<string>>, ghost nm: seq<string>, i: nat, start: Option<string>, fin: set<string>,
                 smap0: map<string, string>, names0: set<string>, q0: Option<string>, finals0: set<string>)
    returns (smap: map<string, string>, names: set<string>, qstart: Option<string>, qfinals: set<string>)
    requires Disjoint(p) && i < |p| == |nm| && p[i] != {} && nm[i] == BlockName(p[i])
    requires NamedUpTo(p, nm, i, start, fin, smap0, names0, q0, finals0)
    ensures NamedUpTo(p, nm, i + 1, start, fin, smap, names, qstart, qfinals)
  {
    var g := p[i];
    var n := BlockNameOf(g);
    smap := MapBlock(smap0, g, n);
    names := names0 + {n};
    qstart := q0;
    if (start.Some? && start.value in g) || qstart.None? {
      qstart := Some(n);
    }
    qfinals := finals0;
    if g * fin != {} {
      qfinals := qfinals + {n};
    }
    MapsNext(p, nm, i, smap0, smap);
    NamesNext(p, nm, i, fin, names0, names, finals0, qfinals);
    StartNext(p, nm, i, start, q0, qstart);
  }

  /**
   * The naming loop of `minimize`: each block gets its name, every member is
   * mapped to it, and the name is added as a state of the new automaton with
   * `add_state(name, start in block, block meets finals)`, where the first state
   * added takes the start while none is set.
   */
  method NameBlocks(p: seq<set<string>>, start: Option<string>, fin: set<string>)
    returns (smap: map<string, string>, names: set<string>, qstart: Option<string>, qfinals: set<string>)
    requires Disjoint(p) && forall i :: 0 <= i < |p| ==> p[i] != {}
    ensures smap.Keys == UnionOf(p)
    ensures NamedUpTo(p, BlockNames(p), |p|, start, fin, smap, names, qstart, qfinals)
  {
    ghost var nm := BlockNames(p);
    smap, names, qstart, qfinals := map[], {}, None, {};
    var i := 0;
    NothingNamed(p, nm, fin);
    while i < |p|
      invariant 0 <= i <= |p|
      invariant NamedUpTo(p, nm, i, start, fin, smap, names, qstart, qfinals)
      decreases |p| - i
    {
      smap, names, qstart, qfinals := NameOne(p, nm, i, start, fin, smap, names, qstart, qfinals);
      i := i + 1;
    }
    StatesOfAll(p);
  }

  lemma NothingNamed(p: seq<set<string>>, nm: seq<string>, fin: set<string>)
    requires |p| == |nm|
    ensures StatesUpTo(p, 0) == {} && NamesUpTo(nm, 0) == {} && FinalNamesUpTo(p, nm, 0, fin) == {}
  {
  }

  /** The map after naming block `i` covers the first `i + 1` blocks. */
  lemma MapsNext(p: seq<set<string>>, nm: seq<string>, i: nat, smap0: map<string, string>, smap: map<string, string>)
    requires Disjoint(p) && i < |p| == |nm|
    requires smap0.Keys == StatesUpTo(p, i) && MapsUpTo(p, nm, i, smap0)
    requires smap.Keys == smap0.Keys + p[i]
    requires forall s :: s in p[i] ==> smap[s] == nm[i]
    requires forall s :: s in smap0 && s !in p[i] ==> smap[s] == smap0[s]
    ensures smap.Keys == StatesUpTo(p, i + 1) && MapsUpTo(p, nm, i + 1, smap)
  {
    forall j, s | 0 <= j < i && s in p[j]
      ensures s !in p[i]
    {
      DisjointBlocks(p, j, i);
      assert s !in p[j] * p[i];
    }
  }

  /** The names and final names after adding block `i`. */
  lemma NamesNext(p: seq<set<string>>, nm: seq<string>, i: nat, fin: set<string>,
                  names0: set<string>, names: set<string>, finals0: set<string>, finals: set<string>)
    requires i < |p| == |nm|
    requires names0 == NamesUpTo(nm, i) && names == names0 + {nm[i]}
    requires finals0 == FinalNamesUpTo(p, nm, i, fin)
    requires finals == if p[i] * fin != {} then finals0 + {nm[i]} else finals0
    ensures names == NamesUpTo(nm, i + 1) && finals == FinalNamesUpTo(p, nm, i + 1, fin)
  {
  }

  /** The start after adding block `i` with `add_state`. */
  lemma StartNext(p: seq<set<string>>, nm: seq<string>, i: nat, start: Option<string>, q0: Option<string>, qstart: Option<string>)
    requires Disjoint(p) && i < |p| == |nm|
    requires StartUpTo(p, nm, i, start, q0)
    requires qstart == if (start.Some? && start.value in p[i]) || q0.None? then Some(nm[i]) else q0
    ensures StartUpTo(p, nm, i + 1, start, qstart)
  {
    if start.Some? && start.value in p[i] {
      forall j | 0 <= j < i
        ensures start.value !in p[j]
      {
        DisjointBlocks(p, j, i);
        assert start.value !in p[j] * p[i];
      }
    }
  }

  /** Every key has exactly one destination. */
  ghost predicate SingleTargets(t: Transitions)
  {
    forall k :: k in t ==> |t[k]| == 1
  }

  lemma SingletonIs(s: set<string>, x: string)
    requires |s| == 1 && x in s
    ensures s == {x}
  {
    var rest := s - {x};
    assert |rest| == 0;
  }

  /**
   * Every key of `q` comes from the transition of `t` leaving state `from[k]`
   * on the same label: that state is mapped to the key's state, its destination
   * is mapped too, and the key leads to the destination's name alone.
   */
  ghost predicate SoundBy(t: Transitions, smap: map<string, string>, q: Transitions, from: map<(string, Label), string>)
  {
    forall k :: k in q ==>
      && k in from
      && (from[k], k.1) in t && from[k] in smap && smap[from[k]] == k.0
      && forall d :: d in t[(from[k], k.1)] ==> d in smap && q[k] == {smap[d]}
  }

  /** Every transition of `t` in `keys` whose ends are both mapped has its image key in `q`. */
  ghost predicate CoversKeys(t: Transitions, smap: map<string, string>, q: Transitions, keys: set<(string, Label)>)
  {
    forall k :: k in t && k in keys && k.0 in smap && (forall d :: d in t[k] ==> d in smap) ==> (smap[k.0], k.1) in q
  }

  /** The labels of `q` after adding one destination under `k`: the symbol joins them. */
  lemma LabelsAfterAdd(q: Transitions, k: (string, Label), d: string, alph: set<string>, r: Transitions, alph': set<string>)
    requires alph == LabelsOf(q) && r == AddTarget(q, k, d)
    requires alph' == if k.1.Sym? then alph + {k.1.text} else alph
    ensures alph' == LabelsOf(r)
  {
    if k.1.Sym? {
      LabelsOfAdd(q, k, d);
    } else {
      forall x | x in LabelsOf(r)
        ensures x in LabelsOf(q)
      {
        var j :| j in r && j.1.Sym? && j.1.text == x;
        assert j in q;
      }
    }
  }

  /** Adding the image of the transition `(src, sym) -> dst` keeps every key sourced. */
  lemma SoundAfterAdd(t: Transitions, smap: map<string, string>, q: Transitions, from: map<(string, Label), string>,
                      src: string, sym: Label, dst: string, q': Transitions, from': map<(string, Label), string>)
    requires SoundBy(t, smap, q, from)
    requires (src, sym) in t && t[(src, sym)] == {dst} && src in smap && dst in smap
    requires q' == q[(smap[src], sym) := {smap[dst]}] && from' == from[(smap[src], sym) := src]
    ensures SoundBy(t, smap, q', from')
  {
  }

  /** One more transition treated: its image key is present whenever both its ends are mapped. */
  lemma CoversAfter(t: Transitions, smap: map<string, string>, q: Transitions, done: set<(string, Label)>,
                    k: (string, Label), q': Transitions)
    requires CoversKeys(t, smap, q, done) && q.Keys <= q'.Keys
    requires k in t && k.0 in smap && (forall d :: d in t[k] ==> d in smap) ==> (smap[k.0], k.1) in q'
    ensures CoversKeys(t, smap, q', done + {k})
  {
  }

  /**
   * The transition loop of `minimize`: for every transition whose source is
   * mapped and whose image key is not yet made, its one destination is looked
   * up, and when that is mapped too, `add_transition` joins the two names and
   * records the symbol. The new automaton has the names as states, so the call
   * never raises.
   */
  method QuotientTransitions(t: Transitions, smap: map<string, string>)
    returns (q: Transitions, alph: set<string>, ghost from: map<(string, Label), string>)
    requires SingleTargets(t)
    ensures SoundBy(t, smap, q, from) && CoversKeys(t, smap, q, t.Keys)
    ensures alph == LabelsOf(q)
  {
    q, alph, from := map[], {}, map[];
    var processed: set<(string, Label)> := {};
    var todo := t.Keys;
    while todo != {}
      invariant todo <= t.Keys
      invariant processed == q.Keys
      invariant SoundBy(t, smap, q, from) && CoversKeys(t, smap, q, t.Keys - todo)
      invariant alph == LabelsOf(q)
      decreases todo
    {
      var k :| k in todo;
      var src, sym := k.0, k.1;
      ghost var q0 := q;
      if src in smap && (smap[src], sym) !in processed {
        var dst :| dst in t[k];
        SingletonIs(t[k], dst);
        if dst in smap {
          var key := (smap[src], sym);
          var name := smap[dst];
          AddTargetFresh(q, key, name);
          ghost var from0, alph0 := from, alph;
          q := AddTarget(q, key, name);
          if sym.Sym? {
            alph := alph + {sym.text};
          }
          LabelsAfterAdd(q0, key, name, alph0, q, alph);
          from := from[key := src];
          processed := processed + {key};
          SoundAfterAdd(t, smap, q0, from0, src, sym, dst, q, from);
        }
      }
      CoversAfter(t, smap, q0, t.Keys - todo, k, q);
      assert t.Keys - (todo - {k}) == (t.Keys - todo) + {k};
      todo := todo - {k};
    }
  }

  // ---------------------------------------------------------------------------
  // The whole quotient
  // ---------------------------------------------------------------------------

  /**
   * The automaton `(qstates, qstart, qfinals, q, qalph)` is what `minimize`
   * builds from the blocks `p` of an automaton with start `start`, finals `fin`
   * and transitions `t`, `smap` sending each state to its block's name.
   */
  ghost predicate IsQuotient(p: seq<set<string>>, start: Option<string>, fin: set<string>, t: Transitions,
                             smap: map<string, string>, qstates: set<string>, qstart: Option<string>,
                             qfinals: set<string>, q: Transitions, qalph: set<string>)
    requires forall i :: 0 <= i < |p| ==> p[i] != {}
  {
    var nm := BlockNames(p);
    && smap.Keys == UnionOf(p) && MapsUpTo(p, nm, |p|, smap)
    && qstates == NamesUpTo(nm, |p|)
    && qfinals == FinalNamesUpTo(p, nm, |p|, fin)
    && StartUpTo(p, nm, |p|, start, qstart)
    && (exists from :: SoundBy(t, smap, q, from))
    && CoversKeys(t, smap, q, t.Keys)
    && qalph == LabelsOf(q)
  }

  /**
   * A quotient is a well-formed deterministic automaton over the block names:
   * finals and start are names, every key joins two names with one destination,
   * and every label is one of the original labels.
   */
  lemma QuotientShape(p: seq<set<string>>, start: Option<string>, fin: set<string>, t: Transitions,
                      smap: map<string, string>, qstates: set<string>, qstart: Option<string>,
                      qfinals: set<string>, q: Transitions, qalph: set<string>)
    requires forall i :: 0 <= i < |p| ==> p[i] != {}
    requires IsQuotient(p, start, fin, t, smap, qstates, qstart, qfinals, q, qalph)
    requires SingleTargets(t)
    ensures qfinals <= qstates && (qstart.Some? ==> qstart.value in qstates)
    ensures WithinStates(q, qstates) && SingleTargets(q) && NoEmptyTargets(q)
    ensures forall k :: k in q ==> exists s :: (s, k.1) in t
  {
    var nm := BlockNames(p);
    var from :| SoundBy(t, smap, q, from);
    MappedToNames(p, nm, smap);
    EdgesWithin(t, smap, q, from, qstates);
    StartIsName(p, nm, start, qstart);
  }

  /** Every state is mapped to one of the names. */
  lemma MappedToNames(p: seq<set<string>>, nm: seq<string>, smap: map<string, string>)
    requires |nm| == |p| && smap.Keys == UnionOf(p) && MapsUpTo(p, nm, |p|, smap)
    ensures forall s :: s in smap ==> smap[s] in NamesUpTo(nm, |p|)
  {
    forall s | s in smap
      ensures smap[s] in NamesUpTo(nm, |p|)
    {
      UnionHasBlock(p, s);
      var i :| 0 <= i < |p| && s in p[i];
      assert smap[s] == nm[i];
    }
  }

  /** The keys of a quotient join mapped names, with one destination and an original label. */
  lemma EdgesWithin(t: Transitions, smap: map<string, string>, q: Transitions, from: map<(string, Label), string>,
                    names: set<string>)
    requires SingleTargets(t) && SoundBy(t, smap, q, from)
    requires forall s :: s in smap ==> smap[s] in names
    ensures WithinStates(q, names) && SingleTargets(q) && NoEmptyTargets(q)
    ensures forall k :: k in q ==> exists s :: (s, k.1) in t
  {
    forall k | k in q
      ensures k.0 in names && q[k] <= names && |q[k]| == 1 && (from[k], k.1) in t
    {
      var src := from[k];
      var d :| d in t[(src, k.1)];
      assert q[k] == {smap[d]};
    }
  }

  /** The start left by the naming loop is one of the names. */
  lemma StartIsName(p: seq<set<string>>, nm: seq<string>, start: Option<string>, qstart: Option<string>)
    requires |nm| == |p| && StartUpTo(p, nm, |p|, start, qstart)
    ensures qstart.Some? ==> qstart.value in NamesUpTo(nm, |p|)
  {
    if qstart.Some? {
      if forall i :: 0 <= i < |p| ==> !(start.Some? && start.value in p[i]) {
        assert qstart == Some(nm[0]);
      } else {
        var i :| 0 <= i < |p| && start.Some? && start.value in p[i];
        assert qstart == Some(nm[i]);
      }
    }
  }

  /** Purging the sink after filling gives what purging alone gives: every filled key led to the sink. */
  lemma PurgeFilled(t: Transitions, keys: set<(string, Label)>, e: string)
    ensures Purge(FillMissing(t, keys, e), e) == Purge(t, e)
  {
    var f := FillMissing(t, keys, e);
    SameMap(Purge(f, e), Purge(t, e));
  }

  /** Purging keeps one destination per key. */
  lemma PurgeKeepsSingle(t: Transitions, e: string)
    requires SingleTargets(t)
    ensures SingleTargets(Purge(t, e))
  {
    forall k | k in Purge(t, e)
      ensures |Purge(t, e)[k]| == 1
    {
      var d :| d in t[k];
      SingletonIs(t[k], d);
    }
  }

  /** Removing an element that is not there changes nothing. */
  lemma RemoveAbsent(s: set<string>, e: string)
    requires e !in s
    ensures s - {e} == s
  {
  }

  /** A union with a subset is the larger set. */
  lemma AbsorbSubset(s: set<string>, f: set<string>)
    requires f <= s
    ensures s + f == s
  {
  }

  /** Adding an absent element and removing it again gives the set back. */
  lemma AddRemove(s: set<string>, e: string)
    requires e !in s
    ensures s <= s + {e} && (s + {e}) - {e} == s
  {
  }

  /** The symbols that filling adds for keys built from `syms` are symbols of `syms`. */
  lemma AddedWithin(t: Transitions, sts: set<string>, syms: set<string>, eps: string)
    ensures AddedLabels(t, KeysFor(sts, syms, eps)) <= syms
  {
    forall x | x in AddedLabels(t, KeysFor(sts, syms, eps))
      ensures x in syms
    {
      var k :| k in KeysFor(sts, syms, eps) && k !in t && k.1.Sym? && k.1.text == x;
      var s, c :| s in sts && c in syms && k == (s, ToLabel(c, eps));
    }
  }

  /**
   * Sending every missing key of the states and the new sink `e` to `e` keeps
   * one destination per key and the states, and purging `e` undoes it.
   */
  lemma FilledShape(t0: Transitions, s0: set<string>, syms: set<string>, eps: string, e: string)
    requires SingleTargets(t0) && NoEmptyTargets(t0) && WithinStates(t0, s0) && e !in s0
    ensures var t := FillMissing(t0, KeysFor(s0 + {e}, syms, eps), e);
      SingleTargets(t) && WithinStates(t, s0 + {e}) && Purge(t, e) == t0
  {
    var keys := KeysFor(s0 + {e}, syms, eps);
    FillMissingKeeps(t0, keys, e, s0 + {e});
    PurgeFilled(t0, keys, e);
    PurgeAbsent(t0, e, s0);
    KeysForProper(s0 + {e}, syms, eps);
  }

  /** A state that no transition mentions is purged without effect. */
  lemma PurgeAbsent(t: Transitions, e: string, sts: set<string>)
    requires WithinStates(t, sts) && NoEmptyTargets(t) && e !in sts
    ensures Purge(t, e) == t
  {
    SameMap(Purge(t, e), t);
  }

  /**
   * The construction of the new automaton in `minimize`: the blocks are named
   * and added as states, then the transitions are joined block to block.
   */
  method BuildQuotient(p: seq<set<string>>, start: Option<string>, fin: set<string>, t: Transitions)
    returns (qstates: set<string>, qstart: Option<string>, qfinals: set<string>, q: Transitions, qalph: set<string>,
             ghost smap: map<string, string>)
    requires Disjoint(p) && (forall i :: 0 <= i < |p| ==> p[i] != {}) && SingleTargets(t)
    ensures IsQuotient(p, start, fin, t, smap, qstates, qstart, qfinals, q, qalph)
    ensures qfinals <= qstates && (qstart.Some? ==> qstart.value in qstates)
    ensures WithinStates(q, qstates) && SingleTargets(q) && NoEmptyTargets(q)
    ensures forall k :: k in q ==> exists s :: (s, k.1) in t
  {
    var sm;
    sm, qstates, qstart, qfinals := NameBlocks(p, start, fin);
    ghost var from;
    q, qalph, from := QuotientTransitions(t, sm);
    smap := sm;
    QuotientShape(p, start, fin, t, smap, qstates, qstart, qfinals, q, qalph);
  }

  // ---------------------------------------------------------------------------
  // The quotient accepts what the automaton accepts
  // ---------------------------------------------------------------------------

  /** Every symbol of `w` is one of `syms` and not the empty move. */
  ghost predicate Over(w: seq<string>, syms: set<string>, eps: string)
  {
    forall i :: 0 <= i < |w| ==> w[i] in syms && w[i] != eps
  }

  lemma OverTail(w: seq<string>, syms: set<string>, eps: string)
    requires w != [] && Over(w, syms, eps)
    ensures w[0] in syms && ToLabel(w[0], eps) == Sym(w[0]) && Over(w[1..], syms, eps)
  {
    assert w[0] != eps;
    forall i | 0 <= i < |w[1..]|
      ensures w[1..][i] in syms && w[1..][i] != eps
    {
      assert w[1..][i] == w[i + 1];
    }
  }

  /** `e` is a sink: each of its keys on a symbol leads back to `e`. */
  ghost predicate Sink(t: Transitions, e: string, syms: set<string>, eps: string)
  {
    forall c {:trigger t[(e, ToLabel(c, eps))]} :: c in syms && (e, ToLabel(c, eps)) in t ==> t[(e, ToLabel(c, eps))] == {e}
  }

  /** Apart from `e`, the blocks of `pq` group the states as the blocks of `p` do. */
  ghost predicate SameBlocksOff(pq: seq<set<string>>, p: seq<set<string>>, e: string)
  {
    forall x, y :: x != e && y != e ==> (SameBlock(pq, x, y) <==> SameBlock(p, x, y))
  }

  /**
   * A completed map `tc` over `sts` with one destination per key, finals `fin`,
   * the sink `e` and blocks `p` of `sts` that keep finals apart and are stable.
   */
  ghost predicate StableSetting(tc: Transitions, sts: set<string>, fin: set<string>, p: seq<set<string>>,
                                syms: set<string>, eps: string, e: string)
  {
    && fin <= sts && UnionOf(p) == sts && Respects(p, fin)
    && Congruent(p, tc, syms, eps) && SingleTargets(tc) && WithinStates(tc, sts)
    && e !in fin && Sink(tc, e, syms, eps)
  }

  /**
   * The named blocks `pq` are the blocks of `p` without `e`, and `q` with the
   * final names `qfinals` is built from them over the purged map `t`.
   */
  ghost predicate QuotientOf(pq: seq<set<string>>, p: seq<set<string>>, sts: set<string>, fin: set<string>, e: string,
                             t: Transitions, smap: map<string, string>, qfinals: set<string>, q: Transitions)
  {
    && (forall i :: 0 <= i < |pq| ==> pq[i] != {})
    && UnionOf(pq) == sts - {e} && Respects(pq, fin) && SameBlocksOff(pq, p, e) && PlainNames(UnionOf(pq))
    && smap.Keys == UnionOf(pq) && MapsUpTo(pq, BlockNames(pq), |pq|, smap)
    && qfinals == FinalNamesUpTo(pq, BlockNames(pq), |pq|, fin)
    && CoversKeys(t, smap, q, t.Keys)
  }

  /** States with the same block name lie in one block, and states of one block share its name. */
  lemma NameIsBlock(pq: seq<set<string>>, smap: map<string, string>, x: string, y: string)
    requires (forall i :: 0 <= i < |pq| ==> pq[i] != {}) && PlainNames(UnionOf(pq))
    requires smap.Keys == UnionOf(pq) && MapsUpTo(pq, BlockNames(pq), |pq|, smap)
    requires x in smap && y in smap
    ensures smap[x] == smap[y] <==> SameBlock(pq, x, y)
  {
    UnionHasBlock(pq, x);
    UnionHasBlock(pq, y);
    var i :| 0 <= i < |pq| && x in pq[i];
    var j :| 0 <= j < |pq| && y in pq[j];
    BlockInUnion(pq, i);
    BlockInUnion(pq, j);
    BlockNameInjective(pq[i], pq[j]);
    if SameBlock(pq, x, y) {
      var k :| 0 <= k < |pq| && x in pq[k] && y in pq[k];
      assert smap[x] == BlockNames(pq)[k] == smap[y];
    }
  }

  /** A state's block name is final exactly when the state is. */
  lemma FinalName(pq: seq<set<string>>, smap: map<string, string>, fin: set<string>, qfinals: set<string>, x: string)
    requires (forall i :: 0 <= i < |pq| ==> pq[i] != {}) && PlainNames(UnionOf(pq)) && Respects(pq, fin)
    requires smap.Keys == UnionOf(pq) && MapsUpTo(pq, BlockNames(pq), |pq|, smap)
    requires qfinals == FinalNamesUpTo(pq, BlockNames(pq), |pq|, fin)
    requires x in smap
    ensures smap[x] in qfinals <==> x in fin
  {
    var nm := BlockNames(pq);
    UnionHasBlock(pq, x);
    var i :| 0 <= i < |pq| && x in pq[i];
    assert smap[x] == nm[i];
    if x in fin {
      assert x in pq[i] * fin;
    }
    if smap[x] in qfinals {
      var j :| 0 <= j < |pq| && pq[j] * fin != {} && nm[j] == nm[i];
      BlockInUnion(pq, i);
      BlockInUnion(pq, j);
      BlockNameInjective(pq[i], pq[j]);
      assert pq[i] <= fin;
    }
  }

  /** `SameBlock` does not depend on the order of the two states. */
  lemma SameBlockSym(p: seq<set<string>>, x: string, y: string)
    requires SameBlock(p, x, y)
    ensures SameBlock(p, y, x)
  {
    var i :| 0 <= i < |p| && x in p[i] && y in p[i];
  }

  /** The one destination of a key of `tc` that survives the purge of `e`. */
  lemma PurgedKey(tc: Transitions, e: string, k: (string, Label)) returns (d: string)
    requires SingleTargets(tc) && k in Purge(tc, e)
    ensures k in tc && tc[k] == {d} && Purge(tc, e)[k] == {d} && d != e
  {
    d :| d in Purge(tc, e)[k];
    SingletonIs(tc[k], d);
  }

  /**
   * A state in the block of the sink accepts nothing after the purge: the
   * stable block sends all its members on every symbol to the sink's block,
   * and the sink is not final.
   */
  lemma {:induction false} DeadWithSink(tc: Transitions, sts: set<string>, fin: set<string>, p: seq<set<string>>,
                                        syms: set<string>, eps: string, e: string, x: string, w: seq<string>)
    requires StableSetting(tc, sts, fin, p, syms, eps, e)
    requires SameBlock(p, x, e) && Over(w, syms, eps)
    ensures !Accepts(Purge(tc, e), x, w, fin)
    decreases |w|
  {
    var t := Purge(tc, e);
    var i :| 0 <= i < |p| && x in p[i] && e in p[i];
    if w == [] {
      assert !(p[i] <= fin);
      assert x !in p[i] * fin;
    } else {
      OverTail(w, syms, eps);
      var l := Sym(w[0]);
      if (x, l) in t {
        var d := PurgedKey(tc, e, (x, l));
        WalkOne(t, x, w, d);
        assert AgreeOn(p, tc, x, e, ToLabel(w[0], eps));
        assert tc[(e, l)] == {e};
        assert SameBlock(p, d, e);
        DeadWithSink(tc, sts, fin, p, syms, eps, e, d, w[1..]);
      } else {
        WalkNone(t, x, w);
      }
    }
  }

  /**
   * The key of a block name in the quotient: it comes from a member `x'` of the
   * block of `x` whose one destination `d'` survives the purge, and it leads to
   * the name of `d'`.
   */
  lemma QuotientKey(tc: Transitions, sts: set<string>, fin: set<string>, p: seq<set<string>>, syms: set<string>,
                    eps: string, e: string, pq: seq<set<string>>, smap: map<string, string>, qfinals: set<string>,
                    q: Transitions, from: map<(string, Label), string>, x: string, c: string)
    returns (x': string, d': string)
    requires StableSetting(tc, sts, fin, p, syms, eps, e)
    requires QuotientOf(pq, p, sts, fin, e, Purge(tc, e), smap, qfinals, q) && SoundBy(Purge(tc, e), smap, q, from)
    requires x in smap && c in syms && ToLabel(c, eps) == Sym(c) && (smap[x], Sym(c)) in q
    ensures x' in smap && SameBlock(p, x, x') && (x', Sym(c)) in tc && tc[(x', Sym(c))] == {d'}
    ensures d' in smap && q[(smap[x], Sym(c))] == {smap[d']}
  {
    var t := Purge(tc, e);
    var k := (smap[x], Sym(c));
    x' := from[k];
    d' := PurgedKey(tc, e, (x', Sym(c)));
    assert d' in sts;
    NameIsBlock(pq, smap, x, x');
  }

  /**
   * The quotient accepts from the name of `x` exactly the words the purged map
   * accepts from `x`. By induction on the word: the quotient's key for the
   * block comes from some member of the block, whose destination shares a
   * block with the destination of `x`; where `x` itself has no key left, its
   * key led to the sink, so the quotient's destination lies in the sink's
   * block and accepts nothing.
   */
  lemma {:induction false} QuotientWalk(tc: Transitions, sts: set<string>, fin: set<string>, p: seq<set<string>>,
                                        syms: set<string>, eps: string, e: string, pq: seq<set<string>>,
                                        smap: map<string, string>, qfinals: set<string>, q: Transitions,
                                        from: map<(string, Label), string>, x: string, w: seq<string>)
    requires StableSetting(tc, sts, fin, p, syms, eps, e)
    requires QuotientOf(pq, p, sts, fin, e, Purge(tc, e), smap, qfinals, q) && SoundBy(Purge(tc, e), smap, q, from)
    requires x in smap && Over(w, syms, eps)
    ensures Accepts(q, smap[x], w, qfinals) <==> Accepts(Purge(tc, e), x, w, fin)
    decreases |w|
  {
    var t := Purge(tc, e);
    if w == [] {
      FinalName(pq, smap, fin, qfinals, x);
    } else {
      OverTail(w, syms, eps);
      var c := w[0];
      var k := (smap[x], Sym(c));
      if (x, Sym(c)) in t {
        var d := PurgedKey(tc, e, (x, Sym(c)));
        assert d in sts;
        WalkOne(t, x, w, d);
        assert k in q;
        var x', d' := QuotientKey(tc, sts, fin, p, syms, eps, e, pq, smap, qfinals, q, from, x, c);
        WalkOne(q, smap[x], w, smap[d']);
        var i :| 0 <= i < |p| && x in p[i] && x' in p[i];
        assert AgreeOn(p, tc, x, x', ToLabel(c, eps));
        assert SameBlock(p, d, d');
        NameIsBlock(pq, smap, d, d');
        QuotientWalk(tc, sts, fin, p, syms, eps, e, pq, smap, qfinals, q, from, d, w[1..]);
      } else {
        WalkNone(t, x, w);
        if k in q {
          var x', d' := QuotientKey(tc, sts, fin, p, syms, eps, e, pq, smap, qfinals, q, from, x, c);
          WalkOne(q, smap[x], w, smap[d']);
          var i :| 0 <= i < |p| && x in p[i] && x' in p[i];
          assert AgreeOn(p, tc, x, x', ToLabel(c, eps));
          var d :| d in tc[(x, Sym(c))];
          SingletonIs(tc[(x, Sym(c))], d);
          assert d == e;
          assert SameBlock(p, e, d');
          SameBlockSym(p, e, d');
          DeadWithSink(tc, sts, fin, p, syms, eps, e, d', w[1..]);
          QuotientWalk(tc, sts, fin, p, syms, eps, e, pq, smap, qfinals, q, from, d', w[1..]);
        } else {
          WalkNone(q, smap[x], w);
        }
      }
    }
  }

  /** From every state, `q` accepts the same words over `syms` from the state's name as `t` does from the state. */
  ghost predicate KeepsLanguage(t: Transitions, fin: set<string>, q: Transitions, qfinals: set<string>,
                                smap: map<string, string>, syms: set<string>, eps: string)
  {
    forall x, w :: x in smap && Over(w, syms, eps) ==>
      (Accepts(q, smap[x], w, qfinals) <==> Accepts(t, x, w, fin))
  }

  /** The quotient of stable blocks accepts what the purged map accepts, from every state. */
  lemma QuotientKeepsLanguage(tc: Transitions, sts: set<string>, fin: set<string>, p: seq<set<string>>,
                              syms: set<string>, eps: string, e: string, pq: seq<set<string>>,
                              smap: map<string, string>, qfinals: set<string>, q: Transitions)
    requires StableSetting(tc, sts, fin, p, syms, eps, e)
    requires QuotientOf(pq, p, sts, fin, e, Purge(tc, e), smap, qfinals, q)
    requires exists from :: SoundBy(Purge(tc, e), smap, q, from)
    ensures KeepsLanguage(Purge(tc, e), fin, q, qfinals, smap, syms, eps)
  {
    var from :| SoundBy(Purge(tc, e), smap, q, from);
    forall x, w | x in smap && Over(w, syms, eps)
      ensures Accepts(q, smap[x], w, qfinals) <==> Accepts(Purge(tc, e), x, w, fin)
    {
      QuotientWalk(tc, sts, fin, p, syms, eps, e, pq, smap, qfinals, q, from, x, w);
    }
  }

  /** The names of the first `n` blocks are at most `n`. */
  lemma {:induction false} NamesUpToCount(nm: seq<string>, n: nat)
    requires n <= |nm|
    ensures |NamesUpTo(nm, n)| <= n
    decreases n
  {
    if n > 0 {
      NamesUpToCount(nm, n - 1);
      assert NamesUpTo(nm, n) == NamesUpTo(nm, n - 1) + {nm[n - 1]};
    }
  }

  /** Non-empty blocks all count. */
  lemma {:induction false} CountAllNonEmpty(p: seq<set<string>>)
    requires forall i :: 0 <= i < |p| ==> p[i] != {}
    ensures CountNonEmpty(p) == |p|
    decreases |p|
  {
    if p != [] {
      CountAllNonEmpty(p[1..]);
    }
  }

  /** The quotient has no more states than the blocks hold. */
  lemma QuotientCount(p: seq<set<string>>)
    requires Disjoint(p) && forall i :: 0 <= i < |p| ==> p[i] != {}
    ensures |NamesUpTo(BlockNames(p), |p|)| <= |UnionOf(p)|
  {
    NamesUpToCount(BlockNames(p), |p|);
    CountAllNonEmpty(p);
    CountBound(p);
  }

  /** Filtering groups the remaining states as before. */
  lemma {:induction false} FilteredSameBlock(p: seq<set<string>>, drop: set<string>, x: string, y: string)
    ensures SameBlock(Filtered(p, drop), x, y) <==> SameBlock(p, x, y) && x !in drop && y !in drop
    decreases |p|
  {
    if p != [] {
      var b := p[0] - drop;
      var head: seq<set<string>> := if b != {} then [b] else [];
      var tail := Filtered(p[1..], drop);
      FilteredSameBlock(p[1..], drop, x, y);
      assert Filtered(p, drop) == head + tail;
      if SameBlock(Filtered(p, drop), x, y) {
        var i :| 0 <= i < |head + tail| && x in (head + tail)[i] && y in (head + tail)[i];
        if i < |head| {
          assert x in p[0] && y in p[0];
        } else {
          assert (head + tail)[i] == tail[i - |head|];
          var j :| 0 <= j < |p[1..]| && x in p[1..][j] && y in p[1..][j];
          assert p[1..][j] == p[j + 1];
        }
      }
      if SameBlock(p, x, y) && x !in drop && y !in drop {
        var i :| 0 <= i < |p| && x in p[i] && y in p[i];
        if i == 0 {
          assert x in b && (head + tail)[0] == b;
        } else {
          assert p[1..][i - 1] == p[i];
          var j :| 0 <= j < |tail| && x in tail[j] && y in tail[j];
          assert (head + tail)[|head| + j] == tail[j];
        }
      }
    }
  }

  /** Dropping the states of `{e}` and then the empty blocks groups every other state as before. */
  lemma FilteredSameBlocksOff(p: seq<set<string>>, drop: set<string>, e: string)
    requires drop <= {e}
    ensures SameBlocksOff(Filtered(p, drop), p, e)
  {
    forall x, y | x != e && y != e
      ensures SameBlock(Filtered(p, drop), x, y) <==> SameBlock(p, x, y)
    {
      FilteredSameBlock(p, drop, x, y);
    }
  }

  /** A state that is the source of no key is trivially a sink. */
  lemma SinkAbsent(t: Transitions, sts: set<string>, e: string, syms: set<string>, eps: string)
    requires WithinStates(t, sts) && e !in sts
    ensures Sink(t, e, syms, eps)
  {
  }

  /** After filling the missing keys with a fresh state `e`, every key of `e` leads back to `e`. */
  lemma FilledSink(t: Transitions, sts: set<string>, keys: set<(string, Label)>, e: string,
                   syms: set<string>, eps: string)
    requires WithinStates(t, sts) && e !in sts
    ensures Sink(FillMissing(t, keys, e), e, syms, eps)
  {
    FillMissingSpec(t, keys, e);
  }

  /**
   * A map with the key of every state of `sts` on every symbol of `chars`, and
   * with no key on any other symbol of `syms`, treats all states alike on each
   * symbol.
   */
  lemma CompleteIsUniform(t: Transitions, sts: set<string>, syms: set<string>, chars: set<string>, eps: string)
    requires KeysFor(sts, chars, eps) <= t.Keys
    requires forall c, k :: c in syms && c !in chars && k in t ==> k.1 != ToLabel(c, eps)
    ensures Uniform(t, sts, syms, eps)
  {
    forall c | c in syms
      ensures (forall q :: q in sts ==> (q, ToLabel(c, eps)) in t) || (forall q :: q in sts ==> (q, ToLabel(c, eps)) !in t)
    {
      if c in chars {
        forall q | q in sts
          ensures (q, ToLabel(c, eps)) in t
        {
          assert (q, ToLabel(c, eps)) in KeysFor(sts, chars, eps);
        }
      }
    }
  }

  /** The quotient of blocks drawn from `s0` has no more states than `s0`. */
  lemma QuotientNoLarger(p: seq<set<string>>, s0: set<string>)
    requires Disjoint(p) && (forall i :: 0 <= i < |p| ==> p[i] != {}) && UnionOf(p) <= s0
    ensures |NamesUpTo(BlockNames(p), |p|)| <= |s0|
  {
    QuotientCount(p);
    var u := UnionOf(p);
    assert s0 == u + (s0 - u) && u * (s0 - u) == {};
  }

  /** The start's block name is the quotient's start. */
  lemma StartName(p: seq<set<string>>, smap: map<string, string>, start: Option<string>, qstart: Option<string>)
    requires forall i :: 0 <= i < |p| ==> p[i] != {}
    requires MapsUpTo(p, BlockNames(p), |p|, smap) && StartUpTo(p, BlockNames(p), |p|, start, qstart)
    requires start.Some? && start.value in UnionOf(p)
    ensures start.value in smap && qstart == Some(smap[start.value])
  {
    UnionHasBlock(p, start.value);
    var i :| 0 <= i < |p| && start.value in p[i];
    var nm := BlockNames(p);
    assert qstart == Some(nm[i]);
    MapsAt(p, nm, |p|, smap, i, start.value);
  }

  /** One instance of `MapsUpTo`: a state of block `i` maps to the name of block `i`. */
  lemma MapsAt(p: seq<set<string>>, nm: seq<string>, n: nat, smap: map<string, string>, i: nat, s: string)
    requires n <= |p| == |nm| && MapsUpTo(p, nm, n, smap)
    requires i < n && s in p[i]
    ensures s in smap && smap[s] == nm[i]
  {
  }

  /**
   * What `minimize` achieves, given stable blocks `p` of the completed map `tc`
   * and the blocks `pq` left when the sink `e` is dropped: each state's block
   * name accepts, in the quotient, exactly the words the purged map accepts
   * from the state; the start's name is the quotient's start; and the quotient
   * has no more states than the automaton without the sink.
   */
  lemma Minimized(tc: Transitions, sts: set<string>, fin: set<string>, p: seq<set<string>>, syms: set<string>,
                  eps: string, e: string, pq: seq<set<string>>, start: Option<string>, smap: map<string, string>,
                  qstates: set<string>, qstart: Option<string>, qfinals: set<string>, q: Transitions,
                  qalph: set<string>)
    requires StableSetting(tc, sts, fin, p, syms, eps, e)
    requires (forall i :: 0 <= i < |pq| ==> pq[i] != {}) && Partition(pq, sts - {e}) && Respects(pq, fin)
    requires SameBlocksOff(pq, p, e) && PlainNames(sts - {e})
    requires IsQuotient(pq, start, fin, Purge(tc, e), smap, qstates, qstart, qfinals, q, qalph)
    ensures smap.Keys == sts - {e}
    ensures KeepsLanguage(Purge(tc, e), fin, q, qfinals, smap, syms, eps)
    ensures start.Some? && start.value in sts - {e} ==> qstart == Some(smap[start.value])
    ensures |qstates| <= |sts - {e}|
  {
    QuotientKeepsLanguage(tc, sts, fin, p, syms, eps, e, pq, smap, qfinals, q);
    QuotientCount(pq);
    if start.Some? && start.value in sts - {e} {
      StartName(pq, smap, start, qstart);
    }
  }
}
