/**
 * The subset construction that turns a finite automaton with empty moves into a
 * deterministic one. Both finite-automaton engines run it: each subset of source
 * states reached from the closure of the start state becomes one new state, named
 * "q0", "q1", ... in the order the subsets are found, and the new state is final
 * when its subset holds a final state. The engines differ only in the symbols
 * they try (single characters of the alphabet, or whole alphabet symbols) and in
 * their epsilon literal, so both are parameters here.
 */
module Subsets {
  import opened Symbols
  import opened NfaSpec
  import opened Names

  /**
   * What the construction reads from the automaton it converts: its transitions,
   * finals, the symbols to try and the epsilon literal, together with `step`, the
   * subset reached from a subset on a symbol. The invariants below mention the
   * successor only through `step`; `Steps` ties it to the closure of the move.
   */
  datatype Source = Source(t: Transitions, finals: set<string>, syms: set<string>, eps: string,
                           step: (set<string>, string) -> set<string>)

  /** `step` is the closure of the move. */
  ghost predicate Steps(src: Source)
  {
    forall S, c :: src.step(S, c) == NextActive(src.t, S, c)
  }



  /**
   * The deterministic automaton built so far: the subsets named (`name`) and the
   * way back (`origin`), its states, finals, alphabet and transitions, and the
   * number of names handed out.
   */
  datatype Build = Build(
    name: map<set<string>, string>, origin: map<string, set<string>>,
    states: set<string>, finals: set<string>, alphabet: set<string>, trans: Transitions,
    count: nat)

  /** The names "q0" .. "q{count-1}". */
  function Issued(count: nat): set<string>
  {
    set i | 0 <= i < count :: SubsetName(i)
  }

  /** The next name is not among those already handed out. */
  lemma FreshName(count: nat)
    ensures SubsetName(count) !in Issued(count)
    ensures Issued(count + 1) == Issued(count) + {SubsetName(count)}
  {
    forall i | 0 <= i < count
      ensures SubsetName(i) != SubsetName(count)
    {
      if SubsetName(i) == SubsetName(count) {
        SubsetNameInjective(i, count);
      }
    }
  }

  /** The names of the subsets holding a final state of the source. */
  function FinalNames(origin: map<string, set<string>>, fin: set<string>): set<string>
  {
    set n | n in origin && origin[n] * fin != {}
  }

  /** The symbols that label some transition. */
  function LabelsOf(t: Transitions): set<string>
  {
    set k | k in t && k.1.Sym? :: k.1.text
  }

  lemma LabelsOfAdd(t: Transitions, k: (string, Label), d: string)
    requires k.1.Sym?
    ensures LabelsOf(AddTarget(t, k, d)) == LabelsOf(t) + {k.1.text}
  {
    var r := AddTarget(t, k, d);
    assert k in r;
    forall x | x in LabelsOf(r)
      ensures x in LabelsOf(t) + {k.1.text}
    {
      var j :| j in r && j.1.Sym? && j.1.text == x;
      if j != k {
        assert j in t;
      }
    }
  }

  lemma AddTargetFresh(t: Transitions, k: (string, Label), d: string)
    requires k !in t
    ensures AddTarget(t, k, d) == t[k := {d}]
  {
    var none: set<string> := {};
    assert none + {d} == {d};
  }

  /** `name` and `origin` are inverse: every subset has one name and every name one subset. */
  ghost predicate Naming(name: map<set<string>, string>, origin: map<string, set<string>>)
  {
    && (forall S :: S in name ==> name[S] in origin && origin[name[S]] == S)
    && (forall n :: n in origin ==> origin[n] in name && name[origin[n]] == n)
  }

  /** Every name was handed out already. */
  ghost predicate NamesIssued(origin: map<string, set<string>>, count: nat)
  {
    forall n :: n in origin ==> n in Issued(count)
  }

  /** Every named subset lies within `u0`. */
  ghost predicate Bounded(name: map<set<string>, string>, u0: set<string>)
  {
    forall S :: S in name ==> S <= u0
  }

  /**
   * The new automaton moves on `c` from the name of `S` to the name of the subset
   * `S` reaches on `c`, whenever that subset is not empty.
   */
  ghost predicate Covered(src: Source, name: map<set<string>, string>, trans: Transitions, S: set<string>, c: string)
    requires S in name
  {
    var U := src.step(S, c);
    U != {} ==>
      && U in name
      && (name[S], Sym(c)) in trans
      && trans[(name[S], Sym(c))] == {name[U]}
  }

  /** Every subset of `seen` has its move on every symbol tried. */
  ghost predicate Complete(src: Source, name: map<set<string>, string>, trans: Transitions, seen: set<set<string>>)
  {
    forall S, c :: S in seen && c in src.syms && c != src.eps ==> S in name && Covered(src, name, trans, S, c)
  }

  /**
   * Every transition leaves the name of a subset of `seen`, on a symbol tried that
   * leads that subset somewhere.
   */
  ghost predicate KeysFrom(src: Source, origin: map<string, set<string>>, trans: Transitions, seen: set<set<string>>)
  {
    forall k :: k in trans ==>
      && k.0 in origin && origin[k.0] in seen
      && k.1.Sym? && k.1.text in src.syms && k.1.text != src.eps
      && src.step(origin[k.0], k.1.text) != {}
  }

  /** Some word of symbols tried leads from `c0` to `S`. */
  ghost predicate ReachedBy(src: Source, c0: set<string>, S: set<string>)
  {
    exists w :: TriedWord(src, w) && SubsetRun(src, c0, w) == S
  }

  /** Every named subset is reached from `c0`, and only `c0` may be empty. */
  ghost predicate AllReached(src: Source, c0: set<string>, name: map<set<string>, string>)
  {
    forall S :: S in name ==> (S == c0 || S != {}) && ReachedBy(src, c0, S)
  }

  /**
   * The table of the construction: the closure `c0` of the start is named "q0";
   * the states are the names, the finals the names of subsets holding a final
   * state, the alphabet the symbols used; and the transitions are exactly the
   * non-empty moves of the named subsets.
   */
  ghost predicate SubsetTable(src: Source, c0: set<string>, b: Build)
  {
    && Naming(b.name, b.origin) && c0 in b.name && b.name[c0] == "q0"
    && b.states == b.origin.Keys
    && b.finals == FinalNames(b.origin, src.finals)
    && b.alphabet == LabelsOf(b.trans)
    && Complete(src, b.name, b.trans, b.name.Keys)
    && KeysFrom(src, b.origin, b.trans, b.name.Keys)
  }

  /** What the finished construction promises: its table, naming only subsets reached from `c0`. */
  ghost predicate IsSubsetDfa(src: Source, c0: set<string>, b: Build)
  {
    SubsetTable(src, c0, b) && AllReached(src, c0, b.name)
  }

  /** Facts about the names that hold at every point of the construction. */
  ghost predicate Named(src: Source, c0: set<string>, u0: set<string>, b: Build)
  {
    && Naming(b.name, b.origin) && c0 in b.name && b.name[c0] == "q0"
    && NamesIssued(b.origin, b.count)
    && b.states == b.origin.Keys
    && b.finals == FinalNames(b.origin, src.finals)
    && b.alphabet == LabelsOf(b.trans)
    && Bounded(b.name, u0)
    && AllReached(src, c0, b.name)
  }

  /**
   * The queue holds distinct named subsets not yet expanded; every named subset is
   * expanded (`done`), being expanded (`active`), or queued.
   */
  ghost predicate Queued(name: map<set<string>, string>, queue: seq<set<string>>,
                         done: set<set<string>>, active: set<set<string>>)
  {
    && done <= name.Keys && active <= name.Keys && done * active == {}
    && (forall i :: 0 <= i < |queue| ==> queue[i] in name && queue[i] !in done + active)
    && (forall i, j :: 0 <= i < j < |queue| ==> queue[i] != queue[j])
    && (forall S :: S in name ==> S in done || S in active || S in queue)
  }

  /** The invariant of the outer loop: the subsets of `done` are fully expanded. */
  ghost predicate OuterInv(src: Source, c0: set<string>, u0: set<string>, b: Build,
                           queue: seq<set<string>>, done: set<set<string>>)
  {
    && Named(src, c0, u0, b)
    && Queued(b.name, queue, done, {})
    && Complete(src, b.name, b.trans, done)
    && KeysFrom(src, b.origin, b.trans, done)
  }

  /** No transition leaves `T` on a symbol of `todo` yet. */
  ghost predicate Untried(name: map<set<string>, string>, trans: Transitions, T: set<string>, todo: set<string>)
    requires T in name
  {
    forall c :: c in todo ==> (name[T], Sym(c)) !in trans
  }

  /** Every symbol tried outside `todo` is done for `T`. */
  ghost predicate TriedFor(src: Source, name: map<set<string>, string>, trans: Transitions, T: set<string>, todo: set<string>)
    requires T in name
  {
    forall c :: c in src.syms - todo && c != src.eps ==> Covered(src, name, trans, T, c)
  }

  /** The invariant of the inner loop, expanding `T` with the symbols `todo` left to try. */
  ghost predicate InnerInv(src: Source, c0: set<string>, u0: set<string>, b: Build,
                           queue: seq<set<string>>, done: set<set<string>>, T: set<string>, todo: set<string>)
  {
    && Named(src, c0, u0, b)
    && Queued(b.name, queue, done, {T})
    && Complete(src, b.name, b.trans, done)
    && KeysFrom(src, b.origin, b.trans, done + {T})
    && todo <= src.syms
    && T in b.name
    && TriedFor(src, b.name, b.trans, T, todo)
    && Untried(b.name, b.trans, T, todo)
  }

  /** All the subsets of `u`: a bound on the subsets the construction can name. */
  ghost function PowerSet(u: set<string>): set<set<string>>
  {
    set s: set<string> | s <= u
  }

  /** Naming more subsets of `u` leaves fewer subsets of `u` unnamed. */
  lemma FewerUnnamed(u: set<string>, before: map<set<string>, string>, after: map<set<string>, string>)
    requires before.Keys <= after.Keys && Bounded(after, u)
    ensures after.Keys == before.Keys || |PowerSet(u) - after.Keys| < |PowerSet(u) - before.Keys|
  {
    if after.Keys != before.Keys {
      var x :| x in after.Keys && x !in before.Keys;
      assert x in PowerSet(u) - before.Keys;
      CardLess(PowerSet(u) - after.Keys, PowerSet(u) - before.Keys);
    }
  }

  /** The starting automaton: only the closure of the start, named "q0". */
  function Start(src: Source, c0: set<string>): Build
  {
    Build(map[c0 := "q0"], map["q0" := c0], {"q0"},
          if c0 * src.finals != {} then {"q0"} else {},
          {}, map[], 1)
  }

  lemma StartInv(src: Source, c0: set<string>, u0: set<string>)
    requires u0 == c0 + Targets(src.t)
    ensures OuterInv(src, c0, u0, Start(src, c0), [c0], {})
  {
    var b := Start(src, c0);
    var none: seq<string> := [];
    assert TriedWord(src, none) && SubsetRun(src, c0, none) == c0;
    assert SubsetName(0) == "q0";
    assert "q0" in Issued(1);
    assert b.finals == FinalNames(b.origin, src.finals);
    assert LabelsOf(map[]) == {};
  }

  /** Taking the head of the queue starts its expansion. */
  lemma BeginQueued(name: map<set<string>, string>, queue: seq<set<string>>, done: set<set<string>>, T: set<string>)
    requires Queued(name, queue, done, {}) && queue != [] && T == queue[0]
    ensures Queued(name, queue[1..], done, {T})
  {
    forall S | S in name
      ensures S in done || S in {T} || S in queue[1..]
    {
      if S !in done && S != T {
        var i :| 0 <= i < |queue| && queue[i] == S;
        assert queue[1..][i - 1] == S;
      }
    }
  }

  lemma BeginInv(src: Source, c0: set<string>, u0: set<string>, b: Build,
                 queue: seq<set<string>>, done: set<set<string>>, T: set<string>)
    requires OuterInv(src, c0, u0, b, queue, done) && queue != [] && T == queue[0]
    ensures InnerInv(src, c0, u0, b, queue[1..], done, T, src.syms)
  {
    BeginQueued(b.name, queue, done, T);
    forall c | c in src.syms
      ensures (b.name[T], Sym(c)) !in b.trans
    {
      assert b.origin[b.name[T]] == T;
    }
  }

  /** Having tried every symbol, `T` is expanded. */
  lemma FinishInv(src: Source, c0: set<string>, u0: set<string>, b: Build,
                  queue: seq<set<string>>, done: set<set<string>>, T: set<string>)
    requires InnerInv(src, c0, u0, b, queue, done, T, {})
    ensures OuterInv(src, c0, u0, b, queue, done + {T})
  {
    forall S, c | S in done + {T} && c in src.syms && c != src.eps
      ensures S in b.name && Covered(src, b.name, b.trans, S, c)
    {
    }
  }

  /** A symbol that is the empty move, or that leads `T` nowhere, adds nothing. */
  lemma SkipInv(src: Source, c0: set<string>, u0: set<string>, b: Build,
                queue: seq<set<string>>, done: set<set<string>>, T: set<string>, todo: set<string>, c: string)
    requires InnerInv(src, c0, u0, b, queue, done, T, todo) && c in todo
    requires c == src.eps || src.step(T, c) == {}
    ensures InnerInv(src, c0, u0, b, queue, done, T, todo - {c})
  {
  }

  /** The record after naming the new subset `U` with `n`. */
  function AddName(src: Source, b: Build, U: set<string>, n: string): Build
  {
    b.(name := b.name[U := n], origin := b.origin[n := U],
       states := b.states + {n},
       finals := if U * src.finals != {} then b.finals + {n} else b.finals,
       count := b.count + 1)
  }

  /** The names of `name` keep their subsets in `name'`. */
  ghost predicate Extends(name: map<set<string>, string>, name': map<set<string>, string>)
  {
    forall S :: S in name ==> S in name' && name'[S] == name[S]
  }

  lemma CoveredExtends(src: Source, name: map<set<string>, string>, name': map<set<string>, string>,
                       trans: Transitions, S: set<string>, c: string)
    requires Extends(name, name') && S in name && Covered(src, name, trans, S, c)
    ensures S in name' && Covered(src, name', trans, S, c)
  {
  }

  lemma NamingAfterName(name: map<set<string>, string>, origin: map<string, set<string>>, U: set<string>, n: string)
    requires Naming(name, origin) && U !in name && n !in origin
    ensures Naming(name[U := n], origin[n := U])
    ensures Extends(name, name[U := n])
  {
  }

  lemma FinalsAfterName(origin: map<string, set<string>>, fin: set<string>, U: set<string>, n: string)
    requires n !in origin
    ensures FinalNames(origin[n := U], fin) == if U * fin != {} then FinalNames(origin, fin) + {n} else FinalNames(origin, fin)
  {
  }

  lemma NamedAfterName(src: Source, c0: set<string>, u0: set<string>, b: Build, U: set<string>, n: string)
    requires Named(src, c0, u0, b)
    requires U <= u0 && U !in b.name && n == SubsetName(b.count)
    requires U != {} && ReachedBy(src, c0, U)
    ensures Named(src, c0, u0, AddName(src, b, U, n))
    ensures Extends(b.name, AddName(src, b, U, n).name)
  {
    FreshName(b.count);
    NamingAfterName(b.name, b.origin, U, n);
    FinalsAfterName(b.origin, src.finals, U, n);
  }

  lemma QueuedAfterName(name: map<set<string>, string>, queue: seq<set<string>>, done: set<set<string>>,
                        T: set<string>, U: set<string>, n: string)
    requires Queued(name, queue, done, {T}) && U !in name
    ensures Queued(name[U := n], queue + [U], done, {T})
  {
    var q' := queue + [U];
    forall S | S in name[U := n]
      ensures S in done || S in {T} || S in q'
    {
      if S != U && S !in done && S != T {
        var i :| 0 <= i < |queue| && queue[i] == S;
        assert q'[i] == S;
      }
    }
    assert q'[|queue|] == U;
  }

  lemma CompleteAfterExtends(src: Source, name: map<set<string>, string>, name': map<set<string>, string>,
                             trans: Transitions, done: set<set<string>>, T: set<string>, todo: set<string>)
    requires Extends(name, name') && T in name
    requires Complete(src, name, trans, done) && TriedFor(src, name, trans, T, todo)
    ensures Complete(src, name', trans, done) && T in name' && TriedFor(src, name', trans, T, todo)
  {
    forall S, c | S in done && c in src.syms && c != src.eps
      ensures S in name' && Covered(src, name', trans, S, c)
    {
      CoveredExtends(src, name, name', trans, S, c);
    }
    forall c | c in src.syms - todo && c != src.eps
      ensures Covered(src, name', trans, T, c)
    {
      CoveredExtends(src, name, name', trans, T, c);
    }
  }

  lemma KeysAfterName(src: Source, origin: map<string, set<string>>, trans: Transitions, seen: set<set<string>>,
                      U: set<string>, n: string)
    requires KeysFrom(src, origin, trans, seen) && n !in origin
    ensures KeysFrom(src, origin[n := U], trans, seen)
  {
  }

  /** Naming a subset not seen before keeps everything already established. */
  lemma NameInv(src: Source, c0: set<string>, u0: set<string>, b: Build,
                queue: seq<set<string>>, done: set<set<string>>, T: set<string>, todo: set<string>,
                c: string, U: set<string>, n: string)
    requires InnerInv(src, c0, u0, b, queue, done, T, todo)
    requires c in todo && c != src.eps && U == src.step(T, c) && U != {}
    requires U <= u0 && U !in b.name && n == SubsetName(b.count)
    ensures InnerInv(src, c0, u0, AddName(src, b, U, n), queue + [U], done, T, todo)
    ensures U in AddName(src, b, U, n).name && AddName(src, b, U, n).name[U] == n
  {
    var b' := AddName(src, b, U, n);
    FreshName(b.count);
    ReachedStep(src, c0, T, c);
    NamedAfterName(src, c0, u0, b, U, n);
    QueuedAfterName(b.name, queue, done, T, U, n);
    CompleteAfterExtends(src, b.name, b'.name, b.trans, done, T, todo);
    KeysAfterName(src, b.origin, b.trans, done + {T}, U, n);
  }

  /** The record after adding the move of `T` on `c` to the name `d`. */
  function AddEdge(b: Build, T: set<string>, c: string, d: string): Build
    requires T in b.name
  {
    b.(trans := AddTarget(b.trans, (b.name[T], Sym(c)), d), alphabet := b.alphabet + {c})
  }

  lemma CoveredAfterEdge(src: Source, name: map<set<string>, string>, origin: map<string, set<string>>,
                         trans: Transitions, T: set<string>, c: string, d: string, S: set<string>, c': string)
    requires Naming(name, origin) && T in name && S in name && Covered(src, name, trans, S, c')
    requires S != T || c' != c
    ensures Covered(src, name, trans[(name[T], Sym(c)) := {d}], S, c')
  {
    if S != T {
      assert origin[name[S]] == S;
      assert name[S] != name[T];
    }
  }

  lemma CompleteAfterEdge(src: Source, name: map<set<string>, string>, origin: map<string, set<string>>,
                          trans: Transitions, done: set<set<string>>, T: set<string>, todo: set<string>, c: string, d: string)
    requires Naming(name, origin) && T in name && T !in done && c in todo
    requires Complete(src, name, trans, done) && TriedFor(src, name, trans, T, todo)
    ensures Complete(src, name, trans[(name[T], Sym(c)) := {d}], done)
    ensures TriedFor(src, name, trans[(name[T], Sym(c)) := {d}], T, todo)
  {
    var trans' := trans[(name[T], Sym(c)) := {d}];
    forall S, c' | S in done && c' in src.syms && c' != src.eps
      ensures S in name && Covered(src, name, trans', S, c')
    {
      CoveredAfterEdge(src, name, origin, trans, T, c, d, S, c');
    }
    forall c' | c' in src.syms - todo && c' != src.eps
      ensures Covered(src, name, trans', T, c')
    {
      CoveredAfterEdge(src, name, origin, trans, T, c, d, T, c');
    }
  }

  lemma KeysAfterEdge(src: Source, name: map<set<string>, string>, origin: map<string, set<string>>,
                      trans: Transitions, seen: set<set<string>>, T: set<string>, c: string, d: string)
    requires Naming(name, origin) && KeysFrom(src, origin, trans, seen) && T in seen && T in name
    requires c in src.syms && c != src.eps && src.step(T, c) != {}
    ensures KeysFrom(src, origin, trans[(name[T], Sym(c)) := {d}], seen)
  {
    assert origin[name[T]] == T;
  }

  lemma UntriedAfterEdge(name: map<set<string>, string>, trans: Transitions, T: set<string>, todo: set<string>, c: string, d: string)
    requires T in name && Untried(name, trans, T, todo)
    ensures Untried(name, trans[(name[T], Sym(c)) := {d}], T, todo - {c})
  {
  }

  /** Adding the move of `T` on `c` to the named subset `U` finishes symbol `c`. */
  lemma EdgeInv(src: Source, c0: set<string>, u0: set<string>, b: Build,
                queue: seq<set<string>>, done: set<set<string>>, T: set<string>, todo: set<string>,
                c: string, U: set<string>)
    requires InnerInv(src, c0, u0, b, queue, done, T, todo) && c in todo && c != src.eps
    requires U == src.step(T, c) && U != {} && U in b.name
    ensures InnerInv(src, c0, u0, AddEdge(b, T, c, b.name[U]), queue, done, T, todo - {c})
  {
    var d := b.name[U];
    var key := (b.name[T], Sym(c));
    AddTargetFresh(b.trans, key, d);
    LabelsOfAdd(b.trans, key, d);
    var trans' := b.trans[key := {d}];
    CompleteAfterEdge(src, b.name, b.origin, b.trans, done, T, todo, c, d);
    KeysAfterEdge(src, b.name, b.origin, b.trans, done + {T}, T, c, d);
    UntriedAfterEdge(b.name, b.trans, T, todo, c, d);
    assert Covered(src, b.name, trans', T, c);
  }

  /**
   * Expands `T`: for every symbol tried, names the subset it reaches when that is
   * new, queues it, and adds the move.
   */
  method Expand(src: Source, ghost c0: set<string>, ghost u0: set<string>, b0: Build,
                queue0: seq<set<string>>, ghost done: set<set<string>>, T: set<string>)
    returns (b: Build, queue: seq<set<string>>)
    requires u0 == c0 + Targets(src.t) && Steps(src)
    requires InnerInv(src, c0, u0, b0, queue0, done, T, src.syms)
    ensures InnerInv(src, c0, u0, b, queue, done, T, {})
    ensures b0.name.Keys <= b.name.Keys
    ensures b.name.Keys == b0.name.Keys ==> queue == queue0
  {
    b, queue := b0, queue0;
    var todo := src.syms;
    while todo != {}
      invariant InnerInv(src, c0, u0, b, queue, done, T, todo)
      invariant b0.name.Keys <= b.name.Keys
      invariant b.name.Keys == b0.name.Keys ==> queue == queue0
      decreases todo
    {
      var c :| c in todo;
      if c == src.eps {
        SkipInv(src, c0, u0, b, queue, done, T, todo, c);
      } else {
        var moved := MoveStates(src.t, T, Sym(c));
        var U := EpsilonClosure(src.t, moved);
        assert U == NextActive(src.t, T, c) == src.step(T, c) && U <= u0;
        if U == {} {
          SkipInv(src, c0, u0, b, queue, done, T, todo, c);
        } else {
          if U !in b.name {
            var n := SubsetName(b.count);
            NameInv(src, c0, u0, b, queue, done, T, todo, c, U, n);
            b, queue := AddName(src, b, U, n), queue + [U];
          }
          EdgeInv(src, c0, u0, b, queue, done, T, todo, c, U);
          b := AddEdge(b, T, c, b.name[U]);
        }
      }
      todo := todo - {c};
    }
  }

  /** The outer loop has emptied the queue: every named subset is expanded. */
  lemma EndInv(src: Source, c0: set<string>, u0: set<string>, b: Build, done: set<set<string>>)
    requires OuterInv(src, c0, u0, b, [], done)
    ensures IsSubsetDfa(src, c0, b)
  {
    assert done == b.name.Keys;
  }

  /** One round of the outer loop: expands the oldest queued subset. */
  method ExpandOldest(src: Source, ghost c0: set<string>, ghost u0: set<string>, b0: Build,
                      queue0: seq<set<string>>, ghost done: set<set<string>>)
    returns (b: Build, queue: seq<set<string>>, T: set<string>)
    requires u0 == c0 + Targets(src.t) && Steps(src)
    requires OuterInv(src, c0, u0, b0, queue0, done) && queue0 != []
    ensures OuterInv(src, c0, u0, b, queue, done + {T})
    ensures || |PowerSet(u0) - b.name.Keys| < |PowerSet(u0) - b0.name.Keys|
            || (b.name.Keys == b0.name.Keys && |queue| < |queue0|)
  {
    T := queue0[0];
    BeginInv(src, c0, u0, b0, queue0, done, T);
    b, queue := Expand(src, c0, u0, b0, queue0[1..], done, T);
    FinishInv(src, c0, u0, b, queue, done, T);
    FewerUnnamed(u0, b0.name, b.name);
  }

  /**
   * `to_dfa` from the closure `c0` of the start state: repeatedly takes the oldest
   * queued subset and expands it, until no subset is left.
   */
  method Determinize(src: Source, c0: set<string>) returns (b: Build)
    requires Steps(src)
    ensures IsSubsetDfa(src, c0, b)
  {
    ghost var u0 := c0 + Targets(src.t);
    ghost var done: set<set<string>> := {};
    var queue := [c0];
    b := Start(src, c0);
    StartInv(src, c0, u0);
    while queue != []
      invariant OuterInv(src, c0, u0, b, queue, done)
      decreases |PowerSet(u0) - b.name.Keys|, |queue|
    {
      var T;
      b, queue, T := ExpandOldest(src, c0, u0, b, queue, done);
      done := done + {T};
    }
    EndInv(src, c0, u0, b, done);
  }

  /**
   * The built automaton is deterministic: one destination per key, every key a
   * symbol tried that is not the empty move, and both ends are states.
   */
  lemma SubsetDfaIsDeterministic(src: Source, c0: set<string>, b: Build)
    requires IsSubsetDfa(src, c0, b)
    ensures forall k :: k in b.trans ==>
      |b.trans[k]| == 1 && k.1.Sym? && k.1.text in src.syms && k.1.text != src.eps
    ensures WithinStates(b.trans, b.states)
    ensures "q0" in b.states && ("q0" in b.finals <==> c0 * src.finals != {})
  {
    forall k | k in b.trans
      ensures |b.trans[k]| == 1 && b.trans[k] <= b.states
    {
      var S, c := b.origin[k.0], k.1.text;
      assert S in b.name && Covered(src, b.name, b.trans, S, c);
      assert b.name[S] == k.0;
    }
  }

  /** The subset reached from `S` by the symbols of `w`, one after another. */
  ghost function SubsetRun(src: Source, S: set<string>, w: seq<string>): set<string>
    decreases |w|
  {
    if w == [] then S else SubsetRun(src, src.step(S, w[0]), w[1..])
  }

  /** Nothing is reached from the empty subset. */
  lemma {:induction false} SubsetRunOfEmpty(src: Source, w: seq<string>)
    requires Steps(src)
    ensures SubsetRun(src, {}, w) == {}
    decreases |w|
  {
    if w != [] {
      NextActiveOfEmpty(src.t, w[0]);
      SubsetRunOfEmpty(src, w[1..]);
    }
  }

  /** The subsets the construction follows are the active sets of reading the word symbol by symbol. */
  lemma {:induction false} SubsetRunIsFollow(src: Source, S: set<string>, w: seq<string>)
    requires Steps(src)
    ensures SubsetRun(src, S, w) == Follow(src.t, S, w)
    decreases |w|
  {
    if w != [] {
      SubsetRunIsFollow(src, src.step(S, w[0]), w[1..]);
    }
  }

  ghost predicate TriedWord(src: Source, w: seq<string>)
  {
    forall i :: 0 <= i < |w| ==> w[i] in src.syms && w[i] != src.eps
  }

  /** Reading one more symbol steps from the subset reached so far. */
  lemma {:induction false} SubsetRunSnoc(src: Source, S: set<string>, w: seq<string>, c: string)
    ensures SubsetRun(src, S, w + [c]) == src.step(SubsetRun(src, S, w), c)
    decreases |w|
  {
    if w == [] {
      assert [c][1..] == [];
    } else {
      assert (w + [c])[1..] == w[1..] + [c];
      SubsetRunSnoc(src, src.step(S, w[0]), w[1..], c);
    }
  }

  /** The step of a reached subset on a symbol tried is reached. */
  lemma ReachedStep(src: Source, c0: set<string>, T: set<string>, c: string)
    requires ReachedBy(src, c0, T) && c in src.syms && c != src.eps
    ensures ReachedBy(src, c0, src.step(T, c))
  {
    var w :| TriedWord(src, w) && SubsetRun(src, c0, w) == T;
    SubsetRunSnoc(src, c0, w, c);
    var w' := w + [c];
    assert TriedWord(src, w');
  }

  /**
   * The built automaton tracks the subsets: from the name of a non-empty named
   * subset it walks by `w` to the name of the subset reached, and it gets stuck
   * exactly when that subset is empty.
   */
  lemma {:induction false} WalkFollowsSubsets(src: Source, c0: set<string>, b: Build, S: set<string>, w: seq<string>)
    requires Steps(src) && SubsetTable(src, c0, b)
    requires S in b.name && S != {} && TriedWord(src, w)
    ensures var R := SubsetRun(src, S, w);
      && (R != {} ==> R in b.name && Walk(b.trans, b.name[S], w) == Some(b.name[R]))
      && (R == {} ==> Walk(b.trans, b.name[S], w) == None)
    decreases |w|
  {
    if w != [] {
      var c, rest := w[0], w[1..];
      var U := src.step(S, c);
      assert SubsetRun(src, S, w) == SubsetRun(src, U, rest);
      assert TriedWord(src, rest) by {
        forall i | 0 <= i < |rest|
          ensures rest[i] in src.syms && rest[i] != src.eps
        {
          assert rest[i] == w[i + 1];
        }
      }
      assert Covered(src, b.name, b.trans, S, c);
      var key := (b.name[S], Sym(c));
      if U == {} {
        assert b.origin[key.0] == S;
        assert key !in b.trans;
        SubsetRunOfEmpty(src, rest);
      } else {
        assert b.trans[key] == {b.name[U]};
        WalkFollowsSubsets(src, c0, b, U, rest);
      }
    }
  }

  /**
   * The states of the built automaton are exactly the subsets reached from the
   * start's closure by symbols tried: the closure itself, and every non-empty
   * subset some word leads to.
   */
  lemma SubsetStatesReached(src: Source, c0: set<string>, b: Build, S: set<string>)
    requires Steps(src) && IsSubsetDfa(src, c0, b)
    ensures S in b.name <==> (S == c0 || S != {}) && ReachedBy(src, c0, S)
  {
    if S != c0 && S != {} && ReachedBy(src, c0, S) {
      var w :| TriedWord(src, w) && SubsetRun(src, c0, w) == S;
      if c0 == {} {
        SubsetRunOfEmpty(src, w);
      } else {
        WalkFollowsSubsets(src, c0, b, c0, w);
      }
    }
  }

  /**
   * The built automaton accepts a word of tried symbols, walking from "q0" to a
   * final name, exactly when the subset reached from the start closure holds a
   * final state of the source.
   */
  lemma SubsetDfaAccepts(src: Source, c0: set<string>, b: Build, w: seq<string>)
    requires Steps(src) && IsSubsetDfa(src, c0, b)
    requires c0 != {} && TriedWord(src, w)
    ensures var r := Walk(b.trans, "q0", w);
      r.Some? && r.value in b.finals <==> SubsetRun(src, c0, w) * src.finals != {}
  {
    WalkFollowsSubsets(src, c0, b, c0, w);
    var R := SubsetRun(src, c0, w);
    if R != {} {
      assert b.origin[b.name[R]] == R;
    }
  }
}
