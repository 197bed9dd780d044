/**
 * The pushdown-automaton engine behind the newer editor. A configuration is a
 * state, an index into the input and a stack (top last); a push string goes on
 * in order, so its last character ends on top. The simulation is a breadth-first
 * search that, from each configuration, follows the empty moves and the one
 * input move whose label is the longest prefix of the rest of the input. The
 * search has no bound of its own, so here it runs within a budget of steps.
 */
module CorePilha {
  import opened Symbols
  import opened PdaSpec
  import opened Maps

  /** Configurations of this engine: the position is the number of input characters read. */
  type Conf = Config<nat>

  /** One run of the search: the recorded history and the configurations found at the end of the input. */
  datatype Found = Found(history: seq<Conf>, reached: set<Conf>)

  /** What `simulate_history` returns. */
  datatype Run = Run(history: seq<Conf>, accepted: bool)

  /** The input labels, other than the empty move, of the rules leaving state `q`. */
  function Candidates(t: Rules, q: string): (r: set<string>)
    ensures Epsilon !in r
  {
    set k | k in t && k.0 == q && k.1.Sym? && k.1.text != Epsilon :: k.1.text
  }

  /**
   * The input move of `c`: the rules for the longest label of its state that
   * prefixes the rest of the input, landing past that label. None at the end of
   * the input or when no label fits.
   */
  function InputMoves(t: Rules, input: string, c: Conf): set<Conf>
  {
    if c.pos >= |input| then {}
    else
      match LongestMatch(Candidates(t, c.state), input[c.pos..])
      case None => {}
      case Some(sym) => Fire(t, c, Sym(sym), c.pos + |sym|, false)
  }

  /** Every step the search may take: the empty moves and the greedy input move. */
  function Moves(t: Rules, input: string): Conf -> set<Conf>
  {
    c => EpsMoves(t, c, false) + InputMoves(t, input, c)
  }

  /**
   * The acceptance the search decides: some configuration reachable from the
   * initial one has read the whole input and is in a final state.
   */
  ghost predicate Accepts(t: Rules, finals: set<string>, init: Conf, input: string)
  {
    exists c :: Reachable(Moves(t, input), {init}, c) && c.pos == |input| && c.state in finals
  }

  /** An empty move is a step of the search. */
  lemma EpsWithinMoves(t: Rules, input: string)
    ensures Within(EpsOf(t, false), Moves(t, input))
  {
    forall c
      ensures EpsOf(t, false)(c) <= Moves(t, input)(c)
    {
    }
  }

  /** A greedy input move reads exactly its label: every configuration it reaches is `|label|` further on. */
  lemma InputMovesAdvance(t: Rules, input: string, c: Conf, e: Conf)
    requires e in InputMoves(t, input, c)
    ensures c.pos < |input|
    ensures var m := LongestMatch(Candidates(t, c.state), input[c.pos..]);
      m.Some? && input[c.pos..][..|m.value|] == m.value && e.pos == c.pos + |m.value| <= |input|
  {
    var m := LongestMatch(Candidates(t, c.state), input[c.pos..]);
    FireSpec(t, c, Sym(m.value), c.pos + |m.value|, false, e);
  }

  /** The search never goes past the end of the input. */
  lemma {:induction false} LayerWithinInput(t: Rules, input: string, init: Conf, n: nat)
    requires init.pos <= |input|
    ensures forall c :: c in Layer(Moves(t, input), {init}, n) ==> c.pos <= |input|
  {
    if n > 0 {
      LayerWithinInput(t, input, init, n - 1);
      forall d | d in Image(Moves(t, input), Layer(Moves(t, input), {init}, n - 1))
        ensures d.pos <= |input|
      {
        var c :| c in Layer(Moves(t, input), {init}, n - 1) && d in Moves(t, input)(c);
        MoveWithinInput(t, input, c, d);
      }
    }
  }

  /** One step of the search stays within the input. */
  lemma MoveWithinInput(t: Rules, input: string, c: Conf, d: Conf)
    requires c.pos <= |input| && d in Moves(t, input)(c)
    ensures d.pos <= |input|
  {
    if d in InputMoves(t, input, c) {
      InputMovesAdvance(t, input, c, d);
    } else {
      FireSpec(t, c, Eps, c.pos, false, d);
    }
  }

  /** Every reachable configuration is at most at the end of the input. */
  lemma ReachableWithinInput(t: Rules, input: string, init: Conf, c: Conf)
    requires init.pos <= |input| && Reachable(Moves(t, input), {init}, c)
    ensures c.pos <= |input|
  {
    var n: nat :| c in Layer(Moves(t, input), {init}, n);
    LayerWithinInput(t, input, init, n);
  }

  /** What the search loop keeps. */
  ghost predicate SearchInv(t: Rules, input: string, init: Conf, queue: seq<Conf>, visited: set<Conf>,
                            expanded: set<Conf>, reached: set<Conf>)
  {
    && visited <= expanded
    && (init in expanded || init in queue)
    && (forall c, d :: c in expanded && d in Moves(t, input)(c) ==> d in expanded || d in queue)
    && (forall c :: c in expanded ==> Reachable(Moves(t, input), {init}, c))
    && (forall c :: c in queue ==> Reachable(Moves(t, input), {init}, c))
    && (forall c :: c in reached ==> Reachable(Moves(t, input), {init}, c) && c.pos == |input|)
    && (forall c :: c in expanded && c.pos == |input| ==> c in reached)
  }

  /** The positions recorded in a history. */
  function Positions(h: seq<Conf>): set<nat>
  {
    set i | 0 <= i < |h| :: h[i].pos
  }

  /** What the recorded history keeps: reachable configurations, the first at 0, no position twice. */
  ghost predicate HistoryInv(t: Rules, input: string, init: Conf, history: seq<Conf>)
  {
    && history != [] && history[0].pos == 0
    && (forall i :: 0 <= i < |history| ==> Reachable(Moves(t, input), {init}, history[i]))
    && (forall i, j :: 0 <= i < j < |history| ==> history[i].pos != history[j].pos)
  }

  /** Recording one more reachable configuration at a new position keeps the history invariant. */
  lemma HistoryGrows(t: Rules, input: string, init: Conf, history: seq<Conf>, e: Conf, history': seq<Conf>)
    requires HistoryInv(t, input, init, history) && e.pos !in Positions(history)
    requires Reachable(Moves(t, input), {init}, e) && history' == history + [e]
    ensures HistoryInv(t, input, init, history') && Positions(history') == Positions(history) + {e.pos}
  {
    forall i | 0 <= i < |history|
      ensures history[i].pos != e.pos
    {
      assert history[i].pos in Positions(history);
    }
    assert history'[|history|] == e;
    assert Positions(history') == Positions(history) + {e.pos} by {
      forall p | p in Positions(history')
        ensures p in Positions(history) + {e.pos}
      {
        var i :| 0 <= i < |history'| && history'[i].pos == p;
        if i < |history| {
          assert history'[i] == history[i];
        }
      }
      forall p | p in Positions(history)
        ensures p in Positions(history')
      {
        var i :| 0 <= i < |history| && history[i].pos == p;
        assert history'[i] == history[i];
      }
    }
  }

  /**
   * `_move_with_symbol`: for each configuration, the rules for `symbol` that pop
   * nothing and those that pop its top, landing `|symbol|` further on.
   */
  method MoveWithSymbol(t: Rules, configs: set<Conf>, symbol: string) returns (r: set<Conf>)
    ensures r == Moved(t, configs, symbol)
  {
    r := {};
    var todo := configs;
    while todo != {}
      invariant todo <= configs
      invariant r == Moved(t, configs - todo, symbol)
      decreases todo
    {
      var c :| c in todo;
      r := r + FireOn(t, c, symbol);
      todo := todo - {c};
    }
  }

  /** The rules for `symbol` fired from one configuration, landing `|symbol|` further on. */
  function FireOn(t: Rules, c: Conf, symbol: string): set<Conf>
  {
    Fire(t, c, ToLabel(symbol, Epsilon), c.pos + |symbol|, false)
  }

  /** The rules for `symbol` fired from each of `configs`. */
  function Moved(t: Rules, configs: set<Conf>, symbol: string): set<Conf>
  {
    set c, e | c in configs && e in FireOn(t, c, symbol) :: e
  }

  /** The position of every configuration that `_move_with_symbol` reaches is `|symbol|` past the one it left. */
  lemma MoveAdvances(t: Rules, configs: set<Conf>, symbol: string, e: Conf)
    requires e in Moved(t, configs, symbol)
    ensures exists c :: c in configs && e.pos == c.pos + |symbol|
  {
    var c: Conf :| c in configs && e in FireOn(t, c, symbol);
    FireSpec(t, c, ToLabel(symbol, Epsilon), c.pos + |symbol|, false, e);
  }

  /** The queueing loop after an input move: every configuration not queued nor visited joins the queue. */
  method Enqueue(next: set<Conf>, queue: seq<Conf>, visited: set<Conf>) returns (queue': seq<Conf>)
    ensures forall x :: x in queue' <==> x in queue || (x in next && x !in visited)
  {
    queue' := queue;
    var todo := next;
    while todo != {}
      invariant todo <= next
      invariant forall x :: x in queue' <==> x in queue || (x in next - todo && x !in visited)
      decreases todo
    {
      var x :| x in todo;
      todo := todo - {x};
      if x !in queue' && x !in visited {
        queue' := queue' + [x];
      }
    }
  }

  /**
   * The queueing loop for the empty-move neighbours of `c`: every one other than
   * `c` that is not queued nor visited joins the queue, and is recorded as
   * reached when it is at the end of the input.
   */
  method EnqueueNeighbours(next: set<Conf>, c: Conf, queue: seq<Conf>, visited: set<Conf>,
                           reached: set<Conf>, end: nat)
    returns (queue': seq<Conf>, reached': set<Conf>)
    ensures forall x :: x in queue' <==> x in queue || (x in next && x != c && x !in visited)
    ensures reached' == reached + set x | x in next && x != c && x !in queue && x !in visited && x.pos == end
  {
    queue', reached' := queue, reached;
    var todo := next;
    while todo != {}
      invariant todo <= next
      invariant forall x :: x in queue' <==> x in queue || (x in next - todo && x != c && x !in visited)
      invariant reached' == reached + set x | x in next - todo && x != c && x !in queue && x !in visited && x.pos == end
      decreases todo
    {
      var x :| x in todo;
      todo := todo - {x};
      if x != c && x !in queue' && x !in visited {
        queue' := queue' + [x];
        if x.pos == end {
          reached' := reached' + {x};
        }
      }
    }
  }

  /** Configurations reached by empty moves from reachable ones are reachable. */
  lemma ClosureReachable(t: Rules, input: string, init: Conf, x: set<Conf>, cl: set<Conf>)
    requires IsClosureOf(EpsOf(t, false), x, cl)
    requires forall e :: e in x ==> Reachable(Moves(t, input), {init}, e)
    ensures forall e :: e in cl ==> Reachable(Moves(t, input), {init}, e)
  {
    EpsWithinMoves(t, input);
    forall e | e in cl
      ensures Reachable(Moves(t, input), {init}, e)
    {
      ReachedFrom(EpsOf(t, false), Moves(t, input), {init}, x, e);
    }
  }

  /** The successors of a reachable configuration are reachable. */
  lemma SuccessorsReachable(t: Rules, input: string, init: Conf, c: Conf)
    requires Reachable(Moves(t, input), {init}, c)
    ensures forall e :: e in Moves(t, input)(c) ==> Reachable(Moves(t, input), {init}, e)
  {
    forall e | e in Moves(t, input)(c)
      ensures Reachable(Moves(t, input), {init}, e)
    {
      ReachStep(Moves(t, input), {init}, c, e);
    }
  }

  /**
   * The input-move part of one visit: when a label fits, the configurations
   * reached and their empty-move closure are queued, and the first time a
   * position is reached one of them is recorded in the history.
   */
  method VisitInput(t: Rules, input: string, ghost init: Conf, c: Conf, queue: seq<Conf>, visited: set<Conf>,
                    ghost expanded: set<Conf>, history: seq<Conf>, fuel: nat)
    returns (ok: bool, queue': seq<Conf>, visited': set<Conf>, history': seq<Conf>)
    requires Reachable(Moves(t, input), {init}, c) && visited <= expanded
    requires forall e :: e in queue ==> Reachable(Moves(t, input), {init}, e)
    requires HistoryInv(t, input, init, history)
    ensures ok ==> visited' <= visited
    ensures ok ==> forall e :: e in queue' ==> Reachable(Moves(t, input), {init}, e)
    ensures ok ==> forall e :: e in queue ==> e in queue'
    ensures ok ==> forall e :: e in InputMoves(t, input, c) ==> e in expanded || e in queue'
    ensures ok ==> HistoryInv(t, input, init, history')
  {
    queue', visited', history' := queue, visited, history;
    ok := true;
    if c.pos >= |input| {
      return;
    }
    var symbol := PickLongest(Candidates(t, c.state), input[c.pos..]);
    if symbol.None? {
      return;
    }
    var moved := MoveWithSymbol(t, {c}, symbol.value);
    MovedIsInputMove(t, input, c, symbol.value, moved);
    SuccessorsReachable(t, input, init, c);
    var closed := CloseUnder(EpsOf(t, false), moved, fuel);
    if closed.OutOfFuel? {
      return false, queue, visited, history;
    }
    ClosureReachable(t, input, init, moved, closed.value);
    visited', history' := Record(t, input, init, moved, closed.value, c.pos + |symbol.value|, visited, history);
    queue' := Enqueue(closed.value, queue, visited');
  }

  /** The moves `_move_with_symbol` makes with the label picked are the greedy input move. */
  lemma MovedIsInputMove(t: Rules, input: string, c: Conf, sym: string, moved: set<Conf>)
    requires c.pos < |input| && LongestMatch(Candidates(t, c.state), input[c.pos..]) == Some(sym)
    requires moved == Moved(t, {c}, sym)
    ensures moved == InputMoves(t, input, c)
  {
    assert sym in Candidates(t, c.state);
    assert InputMoves(t, input, c) == FireOn(t, c, sym);
    forall e | e in FireOn(t, c, sym)
      ensures e in moved
    {
      assert c in {c};
    }
  }

  /**
   * The first time the search reaches position `idx`, it records one configuration
   * of the closure there and forgets which configurations it has visited.
   */
  method Record(t: Rules, input: string, ghost init: Conf, ghost moved: set<Conf>, cl: set<Conf>, idx: nat,
                visited: set<Conf>, history: seq<Conf>)
    returns (visited': set<Conf>, history': seq<Conf>)
    requires IsClosureOf(EpsOf(t, false), moved, cl) && forall e :: e in moved ==> e.pos == idx
    requires forall e :: e in cl ==> Reachable(Moves(t, input), {init}, e)
    requires HistoryInv(t, input, init, history)
    ensures visited' <= visited && HistoryInv(t, input, init, history')
    ensures Positions(history') == Positions(history) + (if cl == {} then {} else {idx})
  {
    visited', history' := visited, history;
    if idx !in Positions(history) && cl != {} {
      var rep :| rep in cl;
      EpsClosurePos(t, false, moved, cl, idx, rep);
      HistoryGrows(t, input, init, history, rep, history + [Config(rep.state, idx, rep.stack)]);
      history' := history + [Config(rep.state, idx, rep.stack)];
      visited' := {};
    }
  }

  /**
   * One turn of the search loop: take the first queued configuration, record it
   * when it has read the whole input, and, unless it was already visited since
   * the last new position, queue its input move and its empty-move neighbours.
   * False when a closure ran out of budget.
   */
  method Visit(t: Rules, input: string, ghost init: Conf, queue: seq<Conf>, visited: set<Conf>,
               ghost expanded: set<Conf>, reached: set<Conf>, history: seq<Conf>, fuel: nat)
    returns (ok: bool, queue': seq<Conf>, visited': set<Conf>, ghost expanded': set<Conf>,
             reached': set<Conf>, history': seq<Conf>)
    requires queue != [] && SearchInv(t, input, init, queue, visited, expanded, reached)
    requires HistoryInv(t, input, init, history)
    ensures ok ==> SearchInv(t, input, init, queue', visited', expanded', reached')
    ensures ok ==> HistoryInv(t, input, init, history')
  {
    var c := queue[0];
    var rest := queue[1..];
    assert forall e :: e in queue ==> e == c || e in rest;
    reached' := reached;
    if c.pos == |input| {
      reached' := reached + {c};
    }
    if c in visited {
      return true, rest, visited, expanded, reached', history;
    }
    expanded' := expanded + {c};
    ok, queue', visited', history' := VisitInput(t, input, init, c, rest, visited + {c}, expanded', history, fuel);
    if !ok {
      return;
    }
    var closed := CloseUnder(EpsOf(t, false), {c}, fuel);
    if closed.OutOfFuel? {
      return false, queue', visited', expanded', reached', history';
    }
    ClosureReachable(t, input, init, {c}, closed.value);
    ghost var before := queue';
    ghost var reachedBefore := reached';
    queue', reached' := EnqueueNeighbours(closed.value, c, queue', visited', reached', |input|);
    NeighboursQueued(t, input, c, closed.value, expanded', visited', before, queue');
    assert reachedBefore <= reached';
    ExpandKeeps(t, input, init, queue, visited, expanded, reached, queue', visited', reached');
  }

  /** Expanding the first queued configuration keeps the search invariant when all its successors end up visited or queued. */
  lemma ExpandKeeps(t: Rules, input: string, init: Conf, queue: seq<Conf>, visited: set<Conf>, expanded: set<Conf>,
                    reached: set<Conf>, queue': seq<Conf>, visited': set<Conf>, reached': set<Conf>)
    requires queue != [] && SearchInv(t, input, init, queue, visited, expanded, reached)
    requires visited' <= expanded + {queue[0]}
    requires forall e :: e in queue[1..] ==> e in queue'
    requires forall e :: e in queue' ==> Reachable(Moves(t, input), {init}, e)
    requires forall e :: e in Moves(t, input)(queue[0]) ==> e in expanded + {queue[0]} || e in queue'
    requires reached <= reached' && forall e :: e in reached' ==> Reachable(Moves(t, input), {init}, e) && e.pos == |input|
    requires queue[0].pos == |input| ==> queue[0] in reached'
    ensures SearchInv(t, input, init, queue', visited', expanded + {queue[0]}, reached')
  {
    assert forall e :: e in queue ==> e == queue[0] || e in queue[1..];
  }

  /** After the neighbours of `c` are queued, every successor of `c` is visited or queued. */
  lemma NeighboursQueued(t: Rules, input: string, c: Conf, cl: set<Conf>, expanded: set<Conf>, visited: set<Conf>,
                         before: seq<Conf>, queue: seq<Conf>)
    requires IsClosureOf(EpsOf(t, false), {c}, cl) && c in expanded && visited <= expanded
    requires forall e :: e in InputMoves(t, input, c) ==> e in expanded || e in before
    requires forall x :: x in queue <==> x in before || (x in cl && x != c && x !in visited)
    ensures forall e :: e in Moves(t, input)(c) ==> e in expanded || e in queue
  {
    assert c in {c};
    assert EpsOf(t, false)(c) <= cl;
  }

  /** The search of `simulate_history`, run within `fuel` turns of its loop and of each closure. */
  method Search(t: Rules, input: string, init: Conf, fuel: nat) returns (r: Outcome<Found>)
    requires init.pos == 0
    ensures r.Done? ==> HistoryInv(t, input, init, r.value.history)
    ensures r.Done? ==> forall c :: c in r.value.reached <==> Reachable(Moves(t, input), {init}, c) && c.pos == |input|
  {
    var closed := CloseUnder(EpsOf(t, false), {init}, fuel);
    if closed.OutOfFuel? {
      return OutOfFuel;
    }
    var cl := closed.value;
    ReachStart(Moves(t, input), {init}, init);
    ClosureReachable(t, input, init, {init}, cl);
    assert init in cl;
    var rep :| rep in cl;
    EpsClosurePos(t, false, {init}, cl, 0, rep);
    var history := [rep];
    var queue := SeqOf(cl);
    var visited: set<Conf> := {};
    ghost var expanded: set<Conf> := {};
    var reached: set<Conf> := {};
    var budget := fuel;
    while queue != []
      invariant SearchInv(t, input, init, queue, visited, expanded, reached)
      invariant HistoryInv(t, input, init, history)
      decreases budget
    {
      if budget == 0 {
        return OutOfFuel;
      }
      budget := budget - 1;
      var ok;
      ok, queue, visited, expanded, reached, history := Visit(t, input, init, queue, visited, expanded, reached, history, fuel);
      if !ok {
        return OutOfFuel;
      }
    }
    SearchComplete(t, input, init, visited, expanded, reached);
    return Done(Found(history, reached));
  }

  /** With the queue empty, the configurations expanded are closed under the moves, so nothing reachable is missed. */
  lemma SearchComplete(t: Rules, input: string, init: Conf, visited: set<Conf>, expanded: set<Conf>, reached: set<Conf>)
    requires SearchInv(t, input, init, [], visited, expanded, reached)
    ensures forall c :: c in reached <==> Reachable(Moves(t, input), {init}, c) && c.pos == |input|
  {
    forall c | c in expanded
      ensures Moves(t, input)(c) <= expanded
    {
      forall d | d in Moves(t, input)(c)
        ensures d in expanded
      {
        assert d in expanded || d in [];
      }
    }
    assert {init} <= expanded by {
      assert init in expanded || init in [];
    }
    forall c | Reachable(Moves(t, input), {init}, c) && c.pos == |input|
      ensures c in reached
    {
      ReachableWithin(Moves(t, input), {init}, expanded, c);
    }
  }

  /** The run `simulate_history` reports: the recorded history, and a stuck entry "-" when the search neither read the whole input nor accepted. */
  function WithStuck(history: seq<Conf>, input: string, accepted: bool): seq<Conf>
    requires history != []
  {
    var last := history[|history| - 1];
    if last.pos < |input| && !accepted then history + [Config("-", last.pos, last.stack)] else history
  }

  /** `remove_pda_transition`: discard the rule, and the key once its set is empty. */
  function RemoveRule(t: Rules, k: Key, d: (string, string)): (r: Rules)
    ensures k in r ==> d !in r[k]
  {
    if k !in t then t
    else if t[k] - {d} == {} then t - {k}
    else t[k := t[k] - {d}]
  }

  /** Removing a rule just added restores the rules, when it was new and its key held no empty set. */
  lemma RemoveUndoesAdd(t: Rules, k: Key, d: (string, string))
    requires d !in RulesAt(t, k) && (k in t ==> t[k] != {})
    ensures RemoveRule(AddRule(t, k, d), k, d) == t
  {
    var r := RemoveRule(AddRule(t, k, d), k, d);
    assert AddRule(t, k, d)[k] - {d} == RulesAt(t, k);
    if k in t {
      assert r == t[k := t[k]];
    } else {
      assert r == t;
    }
  }

  /** The loop of `from_json` over the rules of one key. */
  method AddDestChars(alpha: set<string>, dests: set<(string, string)>) returns (r: set<string>)
    ensures r == alpha + DestChars(dests)
  {
    r := alpha;
    var todo := dests;
    while todo != {}
      invariant todo <= dests
      invariant r == alpha + DestChars(dests - todo)
      decreases todo
    {
      var d :| d in todo;
      r := AddPushChars(r, d.1);
      todo := todo - {d};
    }
  }

  /** The rules of state `q` gone: keys from `q` dropped, rules into `q` dropped, and keys left empty dropped. */
  function Purged(t: Rules, q: string): Rules
  {
    map k | k in t && k.0 != q && Keep(t[k], q) != {} :: Keep(t[k], q)
  }

  /** The rules of a key that do not lead to `q`. */
  function Keep(v: set<(string, string)>, q: string): set<(string, string)>
  {
    set d | d in v && d.0 != q
  }

  /** The loop of `remove_state` that rebuilds the rules without state `q`. */
  method PurgeRules(t: Rules, q: string) returns (r: Rules)
    ensures r == Purged(t, q)
  {
    r := map[];
    var todo := t.Keys;
    while todo != {}
      invariant todo <= t.Keys
      invariant forall k :: k in r <==> k in t && k !in todo && k.0 != q && Keep(t[k], q) != {}
      invariant forall k :: k in r ==> r[k] == Keep(t[k], q)
      decreases todo
    {
      var k :| k in todo;
      var kept := set d | d in t[k] && d.0 != q;
      if k.0 != q && kept != {} {
        r := r[k := kept];
      }
      todo := todo - {k};
    }
    assert r.Keys == Purged(t, q).Keys;
  }

  /** After the purge no rule mentions `q`, and every rule that did not is still there. */
  lemma PurgedForgets(t: Rules, q: string)
    ensures forall k :: k in Purged(t, q) ==>
      && k in t && k.0 != q && Purged(t, q)[k] != {}
      && forall d :: d in Purged(t, q)[k] ==> d in t[k] && d.0 != q
    ensures forall k, d :: k in t && d in t[k] && k.0 != q && d.0 != q ==> k in Purged(t, q) && d in Purged(t, q)[k]
  {
    forall k, d | k in t && d in t[k] && k.0 != q && d.0 != q
      ensures k in Purged(t, q) && d in Purged(t, q)[k]
    {
      assert d in Keep(t[k], q);
    }
  }

  /** A state name after renaming `from` to `to`. */
  function Renamed(x: string, from: string, to: string): string
  {
    if x == from then to else x
  }

  /** A rule key with its source renamed. */
  function RenamedKey(k: Key, from: string, to: string): Key
  {
    (Renamed(k.0, from, to), k.1, k.2)
  }

  /** A key's rules with their destinations renamed. */
  function RenamedDests(v: set<(string, string)>, from: string, to: string): set<(string, string)>
  {
    set d | d in v :: (Renamed(d.0, from, to), d.1)
  }

  /** The key renaming of `rename_state`, as a function value. */
  function RenameKey(from: string, to: string): Key -> Key
  {
    (k: Key) => RenamedKey(k, from, to)
  }

  /** The destination renaming of `rename_state`, as a function value. */
  function RenameDests(from: string, to: string): set<(string, string)> -> set<(string, string)>
  {
    (v: set<(string, string)>) => RenamedDests(v, from, to)
  }

  /** `r` holds exactly the rules of `t`, each under its renamed key with its destinations renamed. */
  ghost predicate IsRenaming(t: Rules, from: string, to: string, r: Rules)
  {
    && (forall j :: j in r ==> Unrename(j, from, to) in t && RenamedKey(Unrename(j, from, to), from, to) == j)
    && (forall k {:trigger RenamedKey(k, from, to)} ::
          k in t ==> RenamedKey(k, from, to) in r && r[RenamedKey(k, from, to)] == RenamedDests(t[k], from, to))
  }

  /** No rule leaves `to` unless the renaming is the identity: then no two keys meet. */
  ghost predicate FreeName(t: Rules, from: string, to: string)
  {
    from == to || forall k :: k in t ==> k.0 != to
  }

  /** Under a free name, no two rule keys are renamed to the same key. */
  lemma RenameKeyInjective(t: Rules, from: string, to: string)
    requires FreeName(t, from, to)
    ensures forall k1, k2 ::
      (k1 in t && k2 in t && Always<Key>()(k1) && Always<Key>()(k2) && RenameKey(from, to)(k1) == RenameKey(from, to)(k2))
      ==> k1 == k2
  {
  }

  /** A name that occurs nowhere in the rules. */
  ghost predicate Unused(t: Rules, x: string)
  {
    forall k :: k in t ==> k.0 != x && forall d :: d in t[k] ==> d.0 != x
  }

  /** The key a renamed key came from, when no rule left the new name before. */
  function Unrename(j: Key, from: string, to: string): Key
  {
    if j.0 == to then (from, j.1, j.2) else j
  }

  /**
   * What `rename_state` makes of the rules when no rule leaves the new name:
   * every rule is there under its renamed key, and nothing else is.
   */
  lemma RenamedRules(t: Rules, from: string, to: string, r: Rules)
    requires ReindexedOn(t, t.Keys, Always(), RenameKey(from, to), RenameDests(from, to), r)
    requires FreeName(t, from, to)
    ensures IsRenaming(t, from, to, r)
  {
    RenameKeyInjective(t, from, to);
    forall k | k in t
      ensures RenamedKey(k, from, to) in r && r[RenamedKey(k, from, to)] == RenamedDests(t[k], from, to)
    {
      ReindexedKeeps(t, Always(), RenameKey(from, to), RenameDests(from, to), r, k);
    }
    forall j | j in r
      ensures Unrename(j, from, to) in t && RenamedKey(Unrename(j, from, to), from, to) == j
    {
      var k :| k in t.Keys && Always<Key>()(k) && RenameKey(from, to)(k) == j;
      assert Unrename(j, from, to) == k;
    }
  }

  /** Renaming destinations to an unused name and back restores them. */
  lemma DestsBack(v: set<(string, string)>, from: string, to: string)
    requires forall d :: d in v ==> d.0 != to
    ensures RenamedDests(RenamedDests(v, from, to), to, from) == v
  {
    forall d | d in v
      ensures d in RenamedDests(RenamedDests(v, from, to), to, from)
    {
      assert (Renamed(d.0, from, to), d.1) in RenamedDests(v, from, to);
    }
  }

  /** Renaming `from` to an unused `to` and back restores the rules. */
  lemma RenameBack(t: Rules, from: string, to: string, r: Rules, r': Rules)
    requires Unused(t, to) && from != to
    requires IsRenaming(t, from, to, r) && IsRenaming(r, to, from, r')
    ensures r' == t
  {
    forall k | k in t
      ensures k in r' && r'[k] == t[k]
    {
      BackOne(t, from, to, r, r', k);
    }
    forall j | j in r'
      ensures j in t
    {
      BackTwo(t, from, to, r, r', j);
    }
    SameRules(r', t);
  }

  lemma BackTwo(t: Rules, from: string, to: string, r: Rules, r': Rules, j: Key)
    requires Unused(t, to) && from != to && j in r'
    requires IsRenaming(t, from, to, r) && IsRenaming(r, to, from, r')
    ensures j in t
  {
    var i := Unrename(j, to, from);
    assert i in r && RenamedKey(i, to, from) == j;
    var k := Unrename(i, from, to);
    assert k in t && RenamedKey(k, from, to) == i;
    assert k.0 != to;
  }

  lemma BackOne(t: Rules, from: string, to: string, r: Rules, r': Rules, k: Key)
    requires Unused(t, to) && from != to && k in t
    requires IsRenaming(t, from, to, r) && IsRenaming(r, to, from, r')
    ensures k in r' && r'[k] == t[k]
  {
    var j := RenamedKey(k, from, to);
    assert j in r && r[j] == RenamedDests(t[k], from, to);
    assert RenamedKey(j, to, from) == k;
    assert RenamedKey(j, to, from) in r' && r'[RenamedKey(j, to, from)] == RenamedDests(r[j], to, from);
    DestsBack(t[k], from, to);
  }

  /** Renaming to a name no rule uses leaves no rule leaving the old name. */
  lemma RenamingFrees(t: Rules, from: string, to: string, r: Rules)
    requires from != to && IsRenaming(t, from, to, r)
    ensures FreeName(r, to, from)
  {
    forall j | j in r
      ensures j.0 != from
    {
      assert Unrename(j, from, to) in t;
    }
  }

  /** Two rule maps with the same keys and the same rules under each are equal. */
  lemma SameRules(a: Rules, b: Rules)
    requires forall k :: k in a <==> k in b
    requires forall k :: k in a ==> a[k] == b[k]
    ensures a == b
  {
  }

  /** `key.split(',', 2)` when it gives three parts: cut at the first two commas. */
  function SplitKey(s: string): Option<(string, string, string)>
  {
    match FirstComma(s)
    case None => None
    case Some(i) =>
      match FirstComma(s[i + 1..])
      case None => None
      case Some(j) => Some((s[..i], s[i + 1..][..j], s[i + 1..][j + 1..]))
  }

  /** A key text that splits is the three parts joined by commas, and the first two parts hold no comma. */
  lemma SplitJoin(s: string)
    requires SplitKey(s).Some?
    ensures var p := SplitKey(s).value;
      s == p.0 + "," + p.1 + "," + p.2 && ',' !in p.0 && ',' !in p.1
  {
    FirstCommaSpec(s);
    var i := FirstComma(s).value;
    var rest := s[i + 1..];
    FirstCommaSpec(rest);
    var j := FirstComma(rest).value;
    var a, b, c := s[..i], rest[..j], rest[j + 1..];
    assert SplitKey(s).value == (a, b, c);
    Cut(rest, j);
    Cut(s, i);
    Join(s, a, rest, b, c);
  }

  /** Joining by commas regroups: `a,(b,c)` is `(a,b),c`. */
  lemma Join(s: string, a: string, rest: string, b: string, c: string)
    requires s == a + "," + rest && rest == b + "," + c
    ensures s == a + "," + b + "," + c
  {
  }

  /** Three parts joined by commas split back into the same parts when the first two hold no comma. */
  lemma JoinSplit(a: string, b: string, c: string)
    requires ',' !in a && ',' !in b
    ensures SplitKey(a + "," + b + "," + c) == Some((a, b, c))
  {
    var s := a + "," + b + "," + c;
    assert s[..|a|] == a;
    assert FirstComma(s) == Some(|a|) by {
      FirstCommaAt(s, |a|);
    }
    var rest := s[|a| + 1..];
    assert rest == b + "," + c;
    assert rest[..|b|] == b && rest[|b| + 1..] == c;
    assert FirstComma(rest) == Some(|b|) by {
      FirstCommaAt(rest, |b|);
    }
  }

  /** The key text `to_json` writes for a rule key. */
  function KeyText(k: Key): string
  {
    k.0 + "," + LabelText(k.1, Epsilon) + "," + LabelText(k.2, Epsilon)
  }

  /** The rule key `from_json` reads from a key text (meaningful when the text splits). */
  function TextKey(s: string): Key
  {
    match SplitKey(s)
    case None => ("", Eps, Eps)
    case Some(p) => KeyOf(p.0, p.1, p.2)
  }

  /** The key texts `from_json` uses; it skips the others. */
  function Splits(): string -> bool
  {
    s => SplitKey(s).Some?
  }

  /** `to_json`'s key texts as a function value. */
  function KeyTexts(): Key -> string
  {
    k => KeyText(k)
  }

  /** `from_json`'s rule keys as a function value. */
  function TextKeys(): string -> Key
  {
    s => TextKey(s)
  }

  /** No state name that starts a rule and no input label holds a comma, so that the key texts split back. */
  ghost predicate Separable(t: Rules)
  {
    forall k :: k in t ==> ',' !in k.0 && ',' !in LabelText(k.1, Epsilon)
  }

  /** A separable key's text splits back into the same key. */
  lemma KeyTextBack(k: Key)
    requires ',' !in k.0 && ',' !in LabelText(k.1, Epsilon) && ProperLabel(k.1, Epsilon) && ProperLabel(k.2, Epsilon)
    ensures SplitKey(KeyText(k)).Some? && TextKey(KeyText(k)) == k
  {
    JoinSplit(k.0, LabelText(k.1, Epsilon), LabelText(k.2, Epsilon));
    LabelTextRoundTrip(k.1, Epsilon);
    LabelTextRoundTrip(k.2, Epsilon);
  }

  /** What `to_json` writes for separable rules: each key text splits back into the key it was written for. */
  lemma SavedTexts(t: Rules, texts: map<string, set<(string, string)>>)
    requires ProperRules(t) && Separable(t)
    requires ReindexedOn(t, t.Keys, Always(), KeyTexts(), Same(), texts)
    ensures forall j :: j in texts ==> SplitKey(j).Some? && TextKey(j) in t && texts[j] == t[TextKey(j)]
    ensures forall k {:trigger KeyText(k)} :: k in t ==> KeyText(k) in texts
  {
    forall j | j in texts
      ensures SplitKey(j).Some? && TextKey(j) in t && texts[j] == t[TextKey(j)]
    {
      var k :| k in t.Keys && Always<Key>()(k) && KeyTexts()(k) == j && texts[j] == Same<set<(string, string)>>()(t[k]);
      KeyTextBack(k);
    }
    forall k | k in t
      ensures KeyText(k) in texts
    {
      assert k in t.Keys && Always<Key>()(k) && KeyTexts()(k) == KeyText(k);
    }
  }

  /** What `from_json` reads back from texts that all split: each rule under the key its text names. */
  lemma LoadedRules(t: Rules, texts: map<string, set<(string, string)>>, loaded: Rules)
    requires ProperRules(t) && Separable(t)
    requires forall j :: j in texts ==> SplitKey(j).Some? && TextKey(j) in t && texts[j] == t[TextKey(j)]
    requires forall k {:trigger KeyText(k)} :: k in t ==> KeyText(k) in texts
    requires ReindexedOn(texts, texts.Keys, Splits(), TextKeys(), Same(), loaded)
    ensures loaded == t
  {
    forall k | k in t
      ensures k in loaded && loaded[k] == t[k]
    {
      KeyTextBack(k);
      var j := KeyText(k);
      assert j in texts.Keys && Splits()(j) && TextKeys()(j) == k;
      var i :| i in texts.Keys && Splits()(i) && TextKeys()(i) == k && loaded[k] == Same<set<(string, string)>>()(texts[i]);
    }
    forall k | k in loaded
      ensures k in t
    {
      var i :| i in texts.Keys && Splits()(i) && TextKeys()(i) == k;
    }
    SameRules(loaded, t);
  }

  /**
   * Saving rules under their key texts and loading them back gives the same
   * rules, when no source state and no input label holds a comma.
   */
  lemma RulesRoundTrip(t: Rules, texts: map<string, set<(string, string)>>, loaded: Rules)
    requires ProperRules(t) && Separable(t)
    requires ReindexedOn(t, t.Keys, Always(), KeyTexts(), Same(), texts)
    requires ReindexedOn(texts, texts.Keys, Splits(), TextKeys(), Same(), loaded)
    ensures loaded == t
  {
    SavedTexts(t, texts);
    LoadedRules(t, texts, loaded);
  }

  /** A key holding a comma in its source state is read back as another key: "a,b" reads as source "a". */
  lemma CommaInStateName()
    ensures var k: Key := ("a,b", Sym("x"), Eps);
      SplitKey(KeyText(k)).Some? && TextKey(KeyText(k)) != k
  {
    var k: Key := ("a,b", Sym("x"), Eps);
    assert KeyText(k) == "a" + "," + "b" + "," + "x,&";
    JoinSplit("a", "b", "x,&");
  }

  /** The input labels the rules use, "&" aside. */
  function InputsOf(t: Rules): set<string>
  {
    set k | k in t && k.1.Sym? :: k.1.text
  }

  /** The stack symbols the rules use, "&" aside: pop labels and pushed characters. */
  function StackOf(t: Rules): set<string>
  {
    PopsOf(t) + PushesOf(t)
  }

  /** A new key adds its labels and pushed characters to the symbols the rules use. */
  lemma SymbolsAdd(t: Rules, k: Key, v: set<(string, string)>)
    requires k !in t
    ensures InputsOf(t[k := v]) == InputsOf(t) + (if k.1.Sym? then {k.1.text} else {})
    ensures StackOf(t[k := v]) == StackOf(t) + (if k.2.Sym? then {k.2.text} else {}) + DestChars(v)
  {
    var t' := t[k := v];
    assert InputsOf(t') == InputsOf(t) + (if k.1.Sym? then {k.1.text} else {});
    PopsAdd(t, k, v);
    PushesAdd(t, k, v);
  }

  /** The pop labels the rules use. */
  function PopsOf(t: Rules): set<string>
  {
    set k | k in t && k.2.Sym? :: k.2.text
  }

  /** The characters the rules push. */
  function PushesOf(t: Rules): set<string>
  {
    set k, x | k in t && x in DestChars(t[k]) :: x
  }

  lemma PopsAdd(t: Rules, k: Key, v: set<(string, string)>)
    requires k !in t
    ensures PopsOf(t[k := v]) == PopsOf(t) + (if k.2.Sym? then {k.2.text} else {})
  {
  }

  lemma PushesAdd(t: Rules, k: Key, v: set<(string, string)>)
    requires k !in t
    ensures PushesOf(t[k := v]) == PushesOf(t) + DestChars(v)
  {
    var t' := t[k := v];
    forall x | x in DestChars(v)
      ensures x in PushesOf(t')
    {
      assert k in t' && t'[k] == v;
    }
    forall x | x in PushesOf(t)
      ensures x in PushesOf(t')
    {
      var i, y :| i in t && y in DestChars(t[i]) && y == x;
      assert i in t' && t'[i] == t[i];
    }
    forall x | x in PushesOf(t')
      ensures x in PushesOf(t) + DestChars(v)
    {
      var i, y :| i in t' && y in DestChars(t'[i]) && y == x;
      if i != k {
        assert i in t && t'[i] == t[i];
      }
    }
  }

  /** Two key texts that split and name the same rule key are the same text. */
  lemma TextKeyInjective(i: string, j: string)
    requires SplitKey(i).Some? && SplitKey(j).Some? && TextKey(i) == TextKey(j)
    ensures i == j
  {
    SplitJoin(i);
    SplitJoin(j);
    var p, q := SplitKey(i).value, SplitKey(j).value;
    assert ToLabel(p.1, Epsilon) == ToLabel(q.1, Epsilon) && ToLabel(p.2, Epsilon) == ToLabel(q.2, Epsilon);
  }

  /**
   * The loop of `from_json` over the saved rules: every key text that splits
   * in three is read as a rule key, and its labels and pushed characters join
   * the alphabets.
   */
  method LoadRules(texts: map<string, set<(string, string)>>, inputs: set<string>, stack: set<string>)
    returns (t: Rules, inputs': set<string>, stack': set<string>)
    ensures ReindexedOn(texts, texts.Keys, Splits(), TextKeys(), Same(), t)
    ensures inputs' == inputs + InputsOf(t)
    ensures stack' == stack + StackOf(t)
  {
    t, inputs', stack' := map[], inputs, stack;
    var done: set<string> := {};
    var todo := texts.Keys;
    NothingLoaded(texts, inputs, stack);
    while todo != {}
      invariant todo == texts.Keys - done
      invariant LoadInv(texts, done, t, inputs, inputs', stack, stack')
      decreases todo
    {
      var key :| key in todo;
      t, inputs', stack' := LoadOne(texts, done, key, t, inputs, inputs', stack, stack');
      TodoStep(texts.Keys, done, todo, key);
      done := done + {key};
      todo := todo - {key};
    }
  }

  /** Moving one key from the keys to visit to the keys visited. */
  lemma TodoStep<K>(keys: set<K>, done: set<K>, todo: set<K>, key: K)
    requires todo == keys - done && key in todo
    ensures todo - {key} == keys - (done + {key})
  {
  }

  /** Before the loop of `from_json`, nothing is read and the alphabets are as saved. */
  lemma NothingLoaded(texts: map<string, set<(string, string)>>, inputs: set<string>, stack: set<string>)
    ensures LoadInv(texts, {}, map[], inputs, inputs, stack, stack)
  {
    assert InputsOf(map[]) == {} && StackOf(map[]) == {};
  }

  /** What the loop of `from_json` keeps: the rules of the texts read so far, and the symbols they use added to the alphabets. */
  ghost predicate LoadInv(texts: map<string, set<(string, string)>>, done: set<string>, t: Rules,
                          inputs: set<string>, inputs': set<string>, stack: set<string>, stack': set<string>)
  {
    && ReindexedOn(texts, done, Splits(), TextKeys(), Same(), t)
    && inputs' == inputs + InputsOf(t)
    && stack' == stack + StackOf(t)
  }

  /** One turn of the loop of `from_json`. */
  method LoadOne(texts: map<string, set<(string, string)>>, ghost done: set<string>, key: string, t: Rules,
                 ghost inputs: set<string>, inputs': set<string>, ghost stack: set<string>, stack': set<string>)
    returns (t'': Rules, inputs'': set<string>, stack'': set<string>)
    requires key in texts && key !in done && LoadInv(texts, done, t, inputs, inputs', stack, stack')
    ensures LoadInv(texts, done + {key}, t'', inputs, inputs'', stack, stack'')
  {
    ReindexStep(texts, done, Splits(), TextKeys(), Same(), t, key);
    t'' := LoadKey(texts, key, t);
    LoadedStep(texts, done, key, t, t'');
    inputs'', stack'' := LoadSymbols(key, texts[key], inputs', stack');
    var added := NewSymbols(key, texts[key]);
    Regroup(inputs, inputs', inputs'', InputsOf(t), InputsOf(t''), added.0);
    Regroup(stack, stack', stack'', StackOf(t), StackOf(t''), added.1);
  }

  /** Adding the same symbols to an alphabet and to the symbols it was extended with. */
  lemma Regroup(base: set<string>, before: set<string>, after: set<string>, used: set<string>, used': set<string>,
                added: set<string>)
    requires before == base + used && used' == used + added && after == before + added
    ensures after == base + used'
  {
  }

  /** The rule key of one key text, written when the text splits in three. */
  method LoadKey(texts: map<string, set<(string, string)>>, key: string, t: Rules) returns (t': Rules)
    requires key in texts
    ensures t' == if Splits()(key) then t[TextKeys()(key) := Same<set<(string, string)>>()(texts[key])] else t
  {
    var parts := SplitKey(key);
    t' := t;
    if parts.Some? {
      var (src, inp, pop) := parts.value;
      t' := t[KeyOf(src, inp, pop) := texts[key]];
    }
  }

  /** The symbols one key text adds: its input and pop parts unless "&", and the characters its rules push. */
  function NewSymbols(key: string, dests: set<(string, string)>): (set<string>, set<string>)
  {
    match SplitKey(key)
    case None => ({}, {})
    case Some(p) =>
      var k := TextKey(key);
      (if k.1.Sym? then {k.1.text} else {}, (if k.2.Sym? then {k.2.text} else {}) + DestChars(dests))
  }

  /** The alphabet updates of `from_json` for one key text. */
  method LoadSymbols(key: string, dests: set<(string, string)>, inputs: set<string>, stack: set<string>)
    returns (inputs': set<string>, stack': set<string>)
    ensures inputs' == inputs + NewSymbols(key, dests).0 && stack' == stack + NewSymbols(key, dests).1
  {
    inputs', stack' := inputs, stack;
    var parts := SplitKey(key);
    if parts.Some? {
      var (src, inp, pop) := parts.value;
      if inp != Epsilon {
        inputs' := inputs' + {inp};
      }
      if pop != Epsilon {
        stack' := stack' + {pop};
      }
      stack' := AddDestChars(stack', dests);
    }
  }

  /** Reading one more key text adds exactly its symbols: no two texts that split name the same rule key. */
  lemma LoadedStep(texts: map<string, set<(string, string)>>, done: set<string>, key: string, t: Rules, t': Rules)
    requires key in texts && key !in done && ReindexedOn(texts, done, Splits(), TextKeys(), Same(), t)
    requires t' == if Splits()(key) then t[TextKeys()(key) := Same<set<(string, string)>>()(texts[key])] else t
    ensures InputsOf(t') == InputsOf(t) + NewSymbols(key, texts[key]).0
    ensures StackOf(t') == StackOf(t) + NewSymbols(key, texts[key]).1
  {
    if SplitKey(key).Some? {
      var k := TextKey(key);
      if k in t {
        var j :| j in done && Splits()(j) && TextKeys()(j) == k;
        TextKeyInjective(j, key);
      }
      SymbolsAdd(t, k, texts[key]);
    }
  }

  /** Renaming destinations keeps their push strings, hence the characters they push. */
  lemma DestCharsRenamed(v: set<(string, string)>, from: string, to: string)
    ensures DestChars(RenamedDests(v, from, to)) == DestChars(v)
  {
    forall x | x in DestChars(v)
      ensures x in DestChars(RenamedDests(v, from, to))
    {
      var d :| d in v && x in PushChars(d.1);
      assert (Renamed(d.0, from, to), d.1) in RenamedDests(v, from, to);
    }
  }

  /** Rules read back by `from_json` use no literal "&" as a label. */
  lemma LoadedProper(texts: map<string, set<(string, string)>>, t: Rules)
    requires ReindexedOn(texts, texts.Keys, Splits(), TextKeys(), Same(), t)
    ensures ProperRules(t)
  {
    forall k | k in t
      ensures ProperLabel(k.1, Epsilon) && ProperLabel(k.2, Epsilon)
    {
      var j :| j in texts.Keys && Splits()(j) && TextKeys()(j) == k;
    }
  }

  /** Alphabets holding the symbols the rules use cover them. */
  lemma SymbolsCover(t: Rules, inputs: set<string>, stack: set<string>)
    requires InputsOf(t) <= inputs && StackOf(t) <= stack
    ensures Covers(t, inputs, stack)
  {
    forall k | k in t
      ensures (k.1.Sym? ==> k.1.text in inputs) && (k.2.Sym? ==> k.2.text in stack) && DestChars(t[k]) <= stack
    {
      forall x | x in DestChars(t[k])
        ensures x in StackOf(t)
      {
        assert x in PushesOf(t);
      }
    }
  }

  /** The record `to_json` writes and `from_json` reads; the rules are keyed by their key texts. */
  datatype PdaRecord = PdaRecord(states: set<string>, inputAlphabet: set<string>, stackAlphabet: set<string>,
                                 start: Option<string>, startStack: string, finals: set<string>,
                                 transitions: map<string, set<(string, string)>>)

  /** A pushdown automaton as the newer editor builds it. */
  class AutomatoPilha {
    var states: set<string>
    var inputAlphabet: set<string>
    var stackAlphabet: set<string>
    var start: Option<string>
    var startStack: string
    var finals: set<string>
    var transitions: Rules

    /** No label spells the literal "&", and the alphabets list every symbol the rules use. */
    ghost predicate Valid()
      reads this
    {
      ProperRules(transitions) && Covers(transitions, inputAlphabet, stackAlphabet)
    }

    /** Everything the automaton mentions is one of its states. */
    ghost predicate Consistent()
      reads this
    {
      && finals <= states
      && (start.Some? ==> start.value in states)
      && RulesWithin(transitions, states)
    }

    constructor ()
      ensures Valid() && Consistent()
      ensures states == {} && inputAlphabet == {} && stackAlphabet == {} && start == None
      ensures startStack == "Z" && finals == {} && transitions == map[]
    {
      states, inputAlphabet, stackAlphabet, start := {}, {}, {}, None;
      startStack, finals, transitions := "Z", {}, map[];
    }

    /** `add_state`: the state joins; it becomes the start only when marked so. */
    method AddState(state: string, isStart: bool, isFinal: bool)
      modifies this
      ensures states == old(states) + {state}
      ensures start == if isStart then Some(state) else old(start)
      ensures finals == if isFinal then old(finals) + {state} else old(finals)
      ensures transitions == old(transitions) && inputAlphabet == old(inputAlphabet)
      ensures stackAlphabet == old(stackAlphabet) && startStack == old(startStack)
      ensures old(Valid()) ==> Valid()
      ensures old(Consistent()) ==> Consistent()
    {
      states := states + {state};
      if isStart {
        start := Some(state);
      }
      if isFinal {
        finals := finals + {state};
      }
    }

    /**
     * `add_transition`: both ends must be states, else `ValueError` and nothing
     * changes; the labels other than "&", the pushed characters and the start
     * stack symbol join the alphabets, and the rule joins its key.
     */
    method AddTransition(src: string, inp: string, pop: string, dst: string, push: string) returns (status: Status)
      modifies this
      ensures status == ValueError <==> src !in old(states) || dst !in old(states)
      ensures status == ValueError ==> unchanged(this)
      ensures status == Ok ==>
        && transitions == AddRule(old(transitions), KeyOf(src, inp, pop), (dst, push))
        && inputAlphabet == old(inputAlphabet) + (if inp != Epsilon then {inp} else {})
        && stackAlphabet == old(stackAlphabet) + (if pop != Epsilon then {pop} else {}) + PushChars(push) + {startStack}
        && states == old(states) && start == old(start) && finals == old(finals) && startStack == old(startStack)
      ensures old(Valid()) ==> Valid()
      ensures old(Consistent()) ==> Consistent()
    {
      if src !in states || dst !in states {
        return ValueError;
      }
      status := Ok;
      var inputs, stack := ExtendAlphabets(inputAlphabet, stackAlphabet, inp, pop, push, startStack);
      var k := KeyOf(src, inp, pop);
      var t := AddRule(transitions, k, (dst, push));
      AddRuleCovered(transitions, k, (dst, push), inputAlphabet, stackAlphabet, inputs, stack);
      AddRuleWithin(transitions, k, (dst, push), states);
      inputAlphabet, stackAlphabet, transitions := inputs, stack, t;
    }

    /**
     * `remove_state`: nothing happens for an unknown state; otherwise it leaves
     * the states, the start and the finals, and every rule from or to it goes.
     */
    method RemoveState(q: string)
      modifies this
      ensures q !in old(states) ==> unchanged(this)
      ensures q in old(states) ==>
        && states == old(states) - {q}
        && start == (if old(start) == Some(q) then None else old(start))
        && finals == old(finals) - {q}
        && transitions == Purged(old(transitions), q)
        && inputAlphabet == old(inputAlphabet) && stackAlphabet == old(stackAlphabet) && startStack == old(startStack)
      ensures old(Valid()) ==> Valid()
      ensures old(Consistent()) ==> Consistent()
    {
      if q !in states {
        return;
      }
      states := states - {q};
      if start == Some(q) {
        start := None;
      }
      finals := finals - {q};
      var t := PurgeRules(transitions, q);
      PurgedForgets(transitions, q);
      PurgedCovered(transitions, q, inputAlphabet, stackAlphabet);
      transitions := t;
    }

    /**
     * `rename_state`: `ValueError` when the old name is not a state or the new
     * one is another state; otherwise the name changes everywhere.
     */
    method RenameState(from: string, to: string) returns (status: Status)
      modifies this
      ensures status == ValueError <==> from !in old(states) || (to in old(states) && to != from)
      ensures status == ValueError ==> unchanged(this)
      ensures status == Ok ==>
        && states == old(states) - {from} + {to}
        && start == (if old(start) == Some(from) then Some(to) else old(start))
        && finals == (if from in old(finals) then old(finals) - {from} + {to} else old(finals))
        && ReindexedOn(old(transitions), old(transitions).Keys, Always(), RenameKey(from, to), RenameDests(from, to), transitions)
        && inputAlphabet == old(inputAlphabet) && stackAlphabet == old(stackAlphabet) && startStack == old(startStack)
      ensures status == Ok && old(Consistent()) ==> IsRenaming(old(transitions), from, to, transitions) && Consistent()
      ensures old(Valid()) ==> Valid()
    {
      if from !in states || (to in states && to != from) {
        return ValueError;
      }
      status := Ok;
      var newStart := if start == Some(from) then Some(to) else start;
      var newFinals := if from in finals then finals - {from} + {to} else finals;
      var t := RenameRules(transitions, from, to, inputAlphabet, stackAlphabet, states);
      states, start, finals, transitions := states - {from} + {to}, newStart, newFinals, t;
    }

    /** `remove_pda_transition`: the rule goes, and its key with it once no rule is left there. */
    method RemovePdaTransition(src: string, inp: string, pop: string, dst: string, push: string)
      modifies this
      ensures transitions == RemoveRule(old(transitions), KeyOf(src, inp, pop), (dst, push))
      ensures states == old(states) && start == old(start) && finals == old(finals)
      ensures inputAlphabet == old(inputAlphabet) && stackAlphabet == old(stackAlphabet) && startStack == old(startStack)
      ensures old(Valid()) ==> Valid()
      ensures old(Consistent()) ==> Consistent()
    {
      var k := KeyOf(src, inp, pop);
      if k in transitions {
        var rest := transitions[k] - {(dst, push)};
        DestCharsMono(rest, transitions[k]);
        if rest == {} {
          transitions := transitions - {k};
        } else {
          transitions := transitions[k := rest];
        }
      }
    }

    /**
     * `simulate_history`: no start state gives an empty run; otherwise the
     * search from the start state with the start stack symbol on the stack,
     * accepting when some configuration reachable from there has read the
     * whole input in a final state.
     */
    method SimulateHistory(input: string, fuel: nat) returns (r: Outcome<Run>)
      ensures (start.None? || start.value == "") ==> r == Done(Run([], false))
      ensures r.Done? && start.Some? && start.value != "" ==>
        var init := Config(start.value, 0, [startStack]);
        && (r.value.accepted <==> Accepts(transitions, finals, init, input))
        && exists core :: HistoryInv(transitions, input, init, core) && r.value.history == WithStuck(core, input, r.value.accepted)
    {
      if start.None? || start.value == "" {
        return Done(Run([], false));
      }
      var init := Config(start.value, 0, [startStack]);
      var found := Search(transitions, input, init, fuel);
      if found.OutOfFuel? {
        return OutOfFuel;
      }
      var accepted := AnyFinal(found.value.reached, finals);
      r := Done(Run(WithStuck(found.value.history, input, accepted), accepted));
    }

    /** `simulate`: false without a start state, else the verdict of `simulate_history`. */
    method Simulate(input: string, fuel: nat) returns (r: Outcome<bool>)
      ensures (start.None? || start.value == "") ==> r == Done(false)
      ensures r.Done? && start.Some? && start.value != "" ==>
        (r.value <==> Accepts(transitions, finals, Config(start.value, 0, [startStack]), input))
    {
      if start.None? || start.value == "" {
        return Done(false);
      }
      var run := SimulateHistory(input, fuel);
      if run.OutOfFuel? {
        return OutOfFuel;
      }
      r := Done(run.value.accepted);
    }

    /** `to_json`: the sets as they are, and each rule key's rules under its key text. */
    method ToJson() returns (rec: PdaRecord)
      ensures rec.states == states && rec.inputAlphabet == inputAlphabet && rec.stackAlphabet == stackAlphabet
      ensures rec.start == start && rec.startStack == startStack && rec.finals == finals
      ensures ReindexedOn(transitions, transitions.Keys, Always(), KeyTexts(), Same(), rec.transitions)
    {
      var texts := Reindex(transitions, Always(), KeyTexts(), Same());
      rec := PdaRecord(states, inputAlphabet, stackAlphabet, start, startStack, finals, texts);
    }

    /**
     * `from_json`: the sets as saved, the start stack symbol added to the stack
     * alphabet, the rules read back from the key texts that split in three, and a
     * start that is not a state replaced by some state (none when there is none).
     */
    constructor FromJson(rec: PdaRecord)
      ensures Valid()
      ensures states == rec.states && finals == rec.finals && startStack == rec.startStack
      ensures ReindexedOn(rec.transitions, rec.transitions.Keys, Splits(), TextKeys(), Same(), transitions)
      ensures inputAlphabet == rec.inputAlphabet + InputsOf(transitions)
      ensures stackAlphabet == rec.stackAlphabet + (if rec.startStack != "" then {rec.startStack} else {}) + StackOf(transitions)
      ensures rec.start.Some? && rec.start.value in rec.states ==> start == rec.start
      ensures !(rec.start.Some? && rec.start.value in rec.states) ==>
        if rec.states == {} then start == None else start.Some? && start.value in rec.states
    {
      var stack := rec.stackAlphabet + (if rec.startStack != "" then {rec.startStack} else {});
      var t, inputs, stack' := LoadRules(rec.transitions, rec.inputAlphabet, stack);
      LoadedProper(rec.transitions, t);
      SymbolsCover(t, inputs, stack');
      var s := rec.start;
      if !(s.Some? && s.value in rec.states) {
        if rec.states != {} {
          var q :| q in rec.states;
          s := Some(q);
        } else {
          s := None;
        }
      }
      states, inputAlphabet, stackAlphabet, start := rec.states, inputs, stack', s;
      startStack, finals, transitions := rec.startStack, rec.finals, t;
    }
  }

  /** The alphabet updates of `add_transition`. */
  method ExtendAlphabets(inputs: set<string>, stack: set<string>, inp: string, pop: string, push: string, startStack: string)
    returns (inputs': set<string>, stack': set<string>)
    ensures inputs' == inputs + (if inp != Epsilon then {inp} else {})
    ensures stack' == stack + (if pop != Epsilon then {pop} else {}) + PushChars(push) + {startStack}
  {
    inputs', stack' := inputs, stack;
    if inp != Epsilon {
      inputs' := inputs' + {inp};
    }
    if pop != Epsilon {
      stack' := stack' + {pop};
    }
    stack' := AddPushChars(stack', push);
    stack' := stack' + {startStack};
  }

  /** The purge keeps the alphabets covering the rules. */
  lemma PurgedCovered(t: Rules, q: string, inputs: set<string>, stack: set<string>)
    ensures Covers(t, inputs, stack) ==> Covers(Purged(t, q), inputs, stack)
  {
    forall k | k in Purged(t, q) && Covers(t, inputs, stack)
      ensures DestChars(Purged(t, q)[k]) <= stack
    {
      DestCharsMono(Purged(t, q)[k], t[k]);
    }
  }

  /**
   * The rule table of `rename_state`: every key and destination naming the
   * old state names the new one, and a table within the states is renamed
   * faithfully when the new name is not already taken.
   */
  method RenameRules(t: Rules, from: string, to: string, ghost inputs: set<string>, ghost stack: set<string>, ghost states: set<string>)
    returns (r: Rules)
    ensures ReindexedOn(t, t.Keys, Always(), RenameKey(from, to), RenameDests(from, to), r)
    ensures Covers(t, inputs, stack) ==> Covers(r, inputs, stack)
    ensures ProperRules(t) ==> ProperRules(r)
    ensures RulesWithin(t, states) && (to !in states || to == from) ==>
      IsRenaming(t, from, to, r) && RulesWithin(r, states - {from} + {to})
  {
    r := Reindex(t, Always(), RenameKey(from, to), RenameDests(from, to));
    RenamedCovered(t, from, to, r, inputs, stack);
    if RulesWithin(t, states) && (to !in states || to == from) {
      RenamedRules(t, from, to, r);
      RenamedWithin(t, from, to, r, states);
    }
  }

  lemma RenamedCovered(t: Rules, from: string, to: string, r: Rules, inputs: set<string>, stack: set<string>)
    requires ReindexedOn(t, t.Keys, Always(), RenameKey(from, to), RenameDests(from, to), r)
    ensures Covers(t, inputs, stack) ==> Covers(r, inputs, stack)
    ensures ProperRules(t) ==> ProperRules(r)
  {
    forall j | j in r
      ensures exists k :: k in t && k.1 == j.1 && k.2 == j.2 && r[j] == RenamedDests(t[k], from, to)
    {
      var k :| k in t.Keys && Always<Key>()(k) && RenameKey(from, to)(k) == j && r[j] == RenameDests(from, to)(t[k]);
    }
    if Covers(t, inputs, stack) {
      forall j | j in r
        ensures DestChars(r[j]) <= stack
      {
        var k :| k in t && k.1 == j.1 && k.2 == j.2 && r[j] == RenamedDests(t[k], from, to);
        DestCharsRenamed(t[k], from, to);
      }
    }
  }

  /** Renaming a state to a name not otherwise in use keeps every rule between states. */
  lemma RenamedWithin(t: Rules, from: string, to: string, r: Rules, states: set<string>)
    requires RulesWithin(t, states) && IsRenaming(t, from, to, r)
    ensures RulesWithin(r, states - {from} + {to})
  {
    forall j | j in r
      ensures j.0 in states - {from} + {to} && forall d :: d in r[j] ==> d.0 in states - {from} + {to}
    {
      var k := Unrename(j, from, to);
      assert k in t && RenamedKey(k, from, to) == j;
      assert r[j] == RenamedDests(t[k], from, to);
    }
  }
}
