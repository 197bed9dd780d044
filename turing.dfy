/**
 * The deterministic Turing machine of the editor (maquina_turing.py): a table
 * from (state, symbol read) to (next state, symbol written, direction), a tape
 * that is blank wherever nothing was written, and a run bounded by a step
 * budget that ends accepted, rejected or out of steps.
 */
module Turing {
  import opened Symbols
  import opened Maps
  import opened Tables

  /** The blank cell symbol. */
  const BLANK: string := "β"

  /** The step budget of `simulate`. */
  const DEFAULT_MAX_STEPS: nat := 1000

  /** A transition's next state, written symbol and direction (`"L"` or `"R"`). */
  type Action = (string, string, string)

  /** The next state of a transition, as a function value. */
  function Dst(): Action -> string
  {
    (v: Action) => v.0
  }

  /** `add_transition` accepts only these two directions. */
  predicate IsDirection(d: string)
  {
    d == "L" || d == "R"
  }

  /** Every transition moves left or right. */
  ghost predicate Directions(t: map<Key, Action>)
  {
    forall k :: k in t ==> IsDirection(t[k].2)
  }

  /** The symbols the transitions write. */
  function Written(t: map<Key, Action>): set<string>
  {
    set k | k in t :: t[k].1
  }

  /** Writing a transition under a new key adds its written symbol. */
  lemma WrittenAdd(t: map<Key, Action>, k: Key, v: Action)
    ensures Written(t[k := v]) <= Written(t) + {v.1}
    ensures k !in t ==> Written(t[k := v]) == Written(t) + {v.1}
  {
    assert k in t[k := v];
    forall x | x in Written(t[k := v])
      ensures x in Written(t) + {v.1}
    {
      var j :| j in t[k := v] && t[k := v][j].1 == x;
      if j != k {
        assert j in t;
      }
    }
    if k !in t {
      forall x | x in Written(t)
        ensures x in Written(t[k := v])
      {
        var j :| j in t && t[j].1 == x;
        assert j in t[k := v] && t[k := v][j] == t[j];
      }
    }
  }

  /** Fewer transitions write fewer symbols and keep their directions. */
  lemma WrittenSub(a: map<Key, Action>, b: map<Key, Action>)
    requires forall k :: k in a ==> k in b && a[k] == b[k]
    ensures Written(a) <= Written(b)
    ensures Directions(b) ==> Directions(a)
  {
    forall x | x in Written(a)
      ensures x in Written(b)
    {
      var j :| j in a && a[j].1 == x;
      assert j in b;
    }
  }

  /** The renaming of a next state inside a transition, as a function value. */
  function RenameAction(from: string, to: string): Action -> Action
  {
    (v: Action) => (Renamed(v.0, from, to), v.1, v.2)
  }

  /** Renaming keeps every written symbol and every direction. */
  lemma WrittenRenamed(t: map<Key, Action>, from: string, to: string, r: map<Key, Action>)
    requires ReindexedOn(t, t.Keys, Always(), RenameKey(from, to), RenameAction(from, to), r)
    ensures Written(r) <= Written(t)
    ensures Directions(t) ==> Directions(r)
  {
    forall x | x in Written(r)
      ensures x in Written(t)
    {
      var j :| j in r && r[j].1 == x;
      var k :| k in t.Keys && Always<Key>()(k) && RenameKey(from, to)(k) == j && r[j] == RenameAction(from, to)(t[k]);
      assert t[k].1 == x;
    }
    if Directions(t) {
      forall j | j in r
        ensures IsDirection(r[j].2)
      {
        var k :| k in t.Keys && Always<Key>()(k) && RenameKey(from, to)(k) == j && r[j] == RenameAction(from, to)(t[k]);
        assert r[j].2 == t[k].2;
      }
    }
  }

  /**
   * Renaming a state to an unused name and back gives the transitions back:
   * renaming loses nothing.
   */
  lemma RenameRoundTrip(t: map<Key, Action>, states: set<string>, from: string, to: string,
                        r: map<Key, Action>, r': map<Key, Action>)
    requires TableWithin(t, states, Dst()) && from in states && to !in states
    requires IsRenamed(t, from, to, RenameAction(from, to), r) && IsRenamed(r, to, from, RenameAction(to, from), r')
    ensures r' == t
  {
    RenameBack(t, from, to, RenameAction(from, to), RenameAction(to, from), r, r');
  }

  // ---------------------------------------------------------------------
  // The run
  // ---------------------------------------------------------------------

  /** A configuration: the state, the cells written so far and the head position. */
  datatype Config = Config(state: string, tape: map<int, string>, head: int)

  /** How a run ends: `"ACEITO"`, `"REJEITADO"` or `"LOOP"`. */
  datatype Verdict = Accepted | Rejected | Looped

  /** The configurations after the first one, and how the run ended. */
  datatype Run = Run(configs: seq<Config>, verdict: Verdict)

  /** The symbol in a cell: blank where nothing was written. */
  function Read(tape: map<int, string>, i: int, blank: string): string
  {
    if i in tape then tape[i] else blank
  }

  /** The tape before the run: the input's characters in cells 0 to n-1. */
  function InitialTape(input: string): map<int, string>
  {
    map i | 0 <= i < |input| :: [input[i]]
  }

  /** The initial tape reads the input's characters under it and blank everywhere else. */
  lemma InitialTapeReads(input: string, blank: string, i: int)
    ensures Read(InitialTape(input), i, blank) == if 0 <= i < |input| then [input[i]] else blank
  {
  }

  /** The loop that writes the input on the tape. */
  method LoadTape(input: string) returns (tape: map<int, string>)
    ensures tape == InitialTape(input)
  {
    tape := map[];
    for i := 0 to |input|
      invariant tape == map j | 0 <= j < i :: [input[j]]
    {
      tape := tape[i := [input[i]]];
    }
  }

  /**
   * One step: the transition for the state and the symbol under the head
   * writes its symbol there, moves the head right for `"R"` and left
   * otherwise, and enters its next state; none without a transition.
   */
  function Step(t: map<Key, Action>, blank: string, c: Config): Option<Config>
  {
    var k := (c.state, Read(c.tape, c.head, blank));
    if k !in t then None
    else Some(Config(t[k].0, c.tape[c.head := t[k].1], if t[k].2 == "R" then c.head + 1 else c.head - 1))
  }

  /**
   * A step changes only the cell under the head, to the symbol written, and
   * moves the head by one cell: right exactly when the direction is `"R"`.
   */
  lemma StepMoves(t: map<Key, Action>, blank: string, c: Config)
    requires Step(t, blank, c).Some?
    ensures var k := (c.state, Read(c.tape, c.head, blank)); var c' := Step(t, blank, c).value;
      && k in t && c'.state == t[k].0
      && Read(c'.tape, c.head, blank) == t[k].1
      && (forall i :: i != c.head ==> Read(c'.tape, i, blank) == Read(c.tape, i, blank))
      && (c'.head == c.head + 1 || c'.head == c.head - 1)
      && (c'.head == c.head + 1 <==> t[k].2 == "R")
  {
  }

  /**
   * The run from `c` with `budget` steps left: out of steps when the budget
   * is spent (checked first), accepted in a final state, rejected without a
   * transition, and otherwise one step further.
   */
  function Steps(t: map<Key, Action>, finals: set<string>, blank: string, c: Config, budget: nat): Run
    decreases budget
  {
    if budget == 0 then Run([], Looped)
    else if c.state in finals then Run([], Accepted)
    else match Step(t, blank, c)
      case None => Run([], Rejected)
      case Some(c') =>
        var r := Steps(t, finals, blank, c', budget - 1);
        Run([c'] + r.configs, r.verdict)
  }

  /**
   * The shape of every run: at most `budget` steps, exactly `budget` when it
   * ran out of steps; each configuration but the last is not final and steps
   * to the next; an accepted run ends in a final state, a rejected one in a
   * state that is not final with no transition for the symbol under the head.
   */
  lemma {:induction false} RunShape(t: map<Key, Action>, finals: set<string>, blank: string, c: Config, budget: nat,
                                    r: Run, h: seq<Config>)
    requires r == Steps(t, finals, blank, c, budget) && h == [c] + r.configs
    ensures |r.configs| <= budget
    ensures r.verdict == Looped <==> |r.configs| == budget
    ensures forall i :: 0 <= i < |h| - 1 ==> h[i].state !in finals && Step(t, blank, h[i]) == Some(h[i + 1])
    ensures r.verdict == Accepted ==> h[|h| - 1].state in finals
    ensures r.verdict == Rejected ==> h[|h| - 1].state !in finals && Step(t, blank, h[|h| - 1]).None?
    decreases budget
  {
    if budget > 0 && c.state !in finals && Step(t, blank, c).Some? {
      var c' := Step(t, blank, c).value;
      var r' := Steps(t, finals, blank, c', budget - 1);
      var h' := [c'] + r'.configs;
      RunShape(t, finals, blank, c', budget - 1, r', h');
      assert h == [c] + h';
      forall i | 0 <= i < |h| - 1
        ensures h[i].state !in finals && Step(t, blank, h[i]) == Some(h[i + 1])
      {
        if i > 0 {
          assert h[i] == h'[i - 1] && h[i + 1] == h'[i];
        }
      }
    }
  }

  /** A run that halted within its budget halts the same way with any larger budget. */
  lemma {:induction false} MoreBudget(t: map<Key, Action>, finals: set<string>, blank: string, c: Config,
                                      budget: nat, more: nat)
    requires Steps(t, finals, blank, c, budget).verdict != Looped && budget <= more
    ensures Steps(t, finals, blank, c, more) == Steps(t, finals, blank, c, budget)
    decreases budget
  {
    if c.state !in finals && Step(t, blank, c).Some? {
      MoreBudget(t, finals, blank, Step(t, blank, c).value, budget - 1, more - 1);
    }
  }

  /** `max_steps` as a budget: a negative one allows no step. */
  function Budget(maxSteps: int): nat
  {
    if maxSteps < 0 then 0 else maxSteps
  }

  /** The loop invariant of the run: the history so far followed by the run from the current configuration is the whole run. */
  ghost predicate Running(t: map<Key, Action>, finals: set<string>, blank: string, c0: Config, budget: nat,
                          history: seq<Config>, cur: Config, step: nat)
  {
    && step <= budget && |history| == step + 1 && history[0] == c0 && history[step] == cur
    && Steps(t, finals, blank, c0, budget).configs == history[1..] + Steps(t, finals, blank, cur, budget - step).configs
    && Steps(t, finals, blank, c0, budget).verdict == Steps(t, finals, blank, cur, budget - step).verdict
  }

  /** One more step keeps the loop invariant of the run. */
  lemma RunningStep(t: map<Key, Action>, finals: set<string>, blank: string, c0: Config, budget: nat,
                    history: seq<Config>, cur: Config, step: nat, c: Config)
    requires Running(t, finals, blank, c0, budget, history, cur, step)
    requires step < budget && cur.state !in finals && Step(t, blank, cur) == Some(c)
    ensures Running(t, finals, blank, c0, budget, history + [c], c, step + 1)
  {
    var rest := Steps(t, finals, blank, c, budget - step - 1);
    assert Steps(t, finals, blank, cur, budget - step) == Run([c] + rest.configs, rest.verdict);
    assert (history + [c])[1..] == history[1..] + [c];
    assert history[1..] + ([c] + rest.configs) == (history[1..] + [c]) + rest.configs;
  }

  /**
   * The loop of `simulate_history` from its first configuration: stop
   * accepted in a final state, rejected without a transition, otherwise write,
   * move and record the new configuration; out of steps after `max_steps`.
   */
  method RunSteps(t: map<Key, Action>, finals: set<string>, blank: string, c0: Config, maxSteps: int)
    returns (history: seq<Config>, verdict: Verdict)
    ensures history == [c0] + Steps(t, finals, blank, c0, Budget(maxSteps)).configs
    ensures verdict == Steps(t, finals, blank, c0, Budget(maxSteps)).verdict
  {
    ghost var budget := Budget(maxSteps);
    var cur := c0;
    var step := 0;
    history := [c0];
    while step < maxSteps
      invariant Running(t, finals, blank, c0, budget, history, cur, step)
      decreases maxSteps - step
    {
      if cur.state in finals {
        return history, Accepted;
      }
      var read := Read(cur.tape, cur.head, blank);
      if (cur.state, read) !in t {
        return history, Rejected;
      }
      var (next, write, direction) := t[(cur.state, read)];
      var head := if direction == "R" then cur.head + 1 else cur.head - 1;
      var c := Config(next, cur.tape[cur.head := write], head);
      assert Step(t, blank, cur) == Some(c);
      RunningStep(t, finals, blank, c0, budget, history, cur, step, c);
      cur, step, history := c, step + 1, history + [c];
    }
    verdict := Looped;
  }

  // ---------------------------------------------------------------------
  // Saving and loading
  // ---------------------------------------------------------------------

  /** How `to_json` names a transition: its state and symbol joined by a comma. */
  function KeyText(k: Key): string
  {
    k.0 + "," + k.1
  }

  /** `key.split(',', 1)`: the parts before and after the first comma; none without a comma. */
  function SplitKey(s: string): (r: Option<Key>)
    ensures r.Some? ==> KeyText(r.value) == s
  {
    FirstCommaSpec(s);
    match FirstComma(s)
    case None => None
    case Some(i) => Cut(s, i); Some((s[..i], s[i + 1..]))
  }

  /** The split finds the first comma: the part before it has none, and without a split there is no comma at all. */
  lemma SplitKeyFirst(s: string)
    ensures SplitKey(s).Some? ==> ',' !in SplitKey(s).value.0
    ensures SplitKey(s).None? ==> ',' !in s
  {
    FirstCommaSpec(s);
  }

  /** A state and symbol joined by a comma split back into themselves when the state has no comma. */
  lemma SplitJoin(k: Key)
    requires ',' !in k.0
    ensures SplitKey(KeyText(k)) == Some(k)
  {
    var s := KeyText(k);
    assert s[..|k.0|] == k.0 && s[|k.0|] == ',' && s[|k.0| + 1..] == k.1;
    FirstCommaAt(s, |k.0|);
  }

  /** A saved transition value: a list of strings, or a number, boolean or null that cannot be unpacked. */
  datatype Saved = Items(items: seq<string>) | Scalar

  /** How `to_json` writes a transition's action, as a function value. */
  function SavedOf(): Action -> Saved
  {
    (v: Action) => Items([v.0, v.1, v.2])
  }

  /** How `to_json` names a transition, as a function value. */
  function TextOf(): Key -> string
  {
    (k: Key) => KeyText(k)
  }

  /**
   * Whether `from_json` keeps a saved transition: the key splits in two, the
   * value unpacks into three, both states exist and the direction is valid;
   * every other one is skipped.
   */
  predicate Kept(tr: map<string, Saved>, states: set<string>, s: string)
  {
    && s in tr && SplitKey(s).Some? && tr[s].Items? && |tr[s].items| == 3
    && SplitKey(s).value.0 in states && tr[s].items[0] in states && IsDirection(tr[s].items[2])
  }

  /** The key `from_json` reads from a saved name. */
  function KeyFrom(s: string): Key
  {
    match SplitKey(s) case Some(k) => k case None => ("", "")
  }

  /** The action `from_json` reads from a saved value. */
  function ActionFrom(v: Saved): Action
  {
    if v.Items? && |v.items| == 3 then (v.items[0], v.items[1], v.items[2]) else ("", "", "")
  }

  /** `Kept`, as a function value. */
  function Keep(tr: map<string, Saved>, states: set<string>): string -> bool
  {
    (s: string) => Kept(tr, states, s)
  }

  /** `KeyFrom`, as a function value. */
  function KeyOf(): string -> Key
  {
    (s: string) => KeyFrom(s)
  }

  /** `ActionFrom`, as a function value. */
  function ActionOf(): Saved -> Action
  {
    (v: Saved) => ActionFrom(v)
  }

  /** The transitions `from_json` loads: every kept one, under its split key. */
  function Loaded(tr: map<string, Saved>, states: set<string>): map<Key, Action>
  {
    map s | s in tr && Kept(tr, states, s) :: KeyFrom(s) := ActionFrom(tr[s])
  }

  /** Two kept names never split into the same key: the load never overwrites. */
  lemma KeepSplitsApart(tr: map<string, Saved>, states: set<string>)
    ensures Apart(tr, Keep(tr, states), KeyOf())
  {
    forall s1, s2 | s1 in tr && s2 in tr && Keep(tr, states)(s1) && Keep(tr, states)(s2) && KeyOf()(s1) == KeyOf()(s2)
      ensures s1 == s2
    {
      assert KeyText(SplitKey(s1).value) == s1 && KeyText(SplitKey(s2).value) == s2;
    }
  }

  /** The loaded table is a reindexing of the kept transitions. */
  lemma LoadedReindexes(tr: map<string, Saved>, states: set<string>)
    ensures ReindexedOn(tr, tr.Keys, Keep(tr, states), KeyOf(), ActionOf(), Loaded(tr, states))
  {
    var l := Loaded(tr, states);
    forall j | j in l
      ensures exists s :: s in tr.Keys && Keep(tr, states)(s) && KeyOf()(s) == j && l[j] == ActionOf()(tr[s])
    {
      var s :| s in tr && Kept(tr, states, s) && KeyFrom(s) == j;
      assert l[KeyFrom(s)] == ActionFrom(tr[s]);
      assert s in tr.Keys && Keep(tr, states)(s) && KeyOf()(s) == j;
    }
    forall j | exists s :: s in tr.Keys && Keep(tr, states)(s) && KeyOf()(s) == j
      ensures j in l
    {
      var s :| s in tr.Keys && Keep(tr, states)(s) && KeyOf()(s) == j;
      assert Kept(tr, states, s) && KeyFrom(s) == j;
    }
  }

  /** No source state holds a comma. */
  ghost predicate CommaFreeSources(t: map<Key, Action>)
  {
    forall k :: k in t ==> ',' !in k.0
  }

  /** Without commas in source states, no two transitions are saved under the same name. */
  lemma TextsApart(t: map<Key, Action>)
    requires CommaFreeSources(t)
    ensures forall k1, k2 :: k1 in t && k2 in t && Always<Key>()(k1) && Always<Key>()(k2) && TextOf()(k1) == TextOf()(k2) ==> k1 == k2
  {
    forall k1, k2 | k1 in t && k2 in t && TextOf()(k1) == TextOf()(k2)
      ensures k1 == k2
    {
      SplitJoin(k1);
      SplitJoin(k2);
    }
  }

  /** Every transition is read back from the name it was saved under, when its source has no comma. */
  lemma SavedRead(t: map<Key, Action>, states: set<string>, tr: map<string, Saved>, k: Key)
    requires TableWithin(t, states, Dst()) && Directions(t) && CommaFreeSources(t) && k in t
    requires ReindexedOn(t, t.Keys, Always(), TextOf(), SavedOf(), tr)
    ensures KeyText(k) in tr.Keys && Keep(tr, states)(KeyText(k)) && KeyOf()(KeyText(k)) == k
    ensures t[k] == ActionOf()(tr[KeyText(k)])
  {
    TextsApart(t);
    ReindexedKeeps(t, Always(), TextOf(), SavedOf(), tr, k);
    SplitJoin(k);
    assert tr[KeyText(k)] == Items([t[k].0, t[k].1, t[k].2]);
  }

  /** Every kept saved name reads back as the key of a transition, when sources have no comma. */
  lemma ReadSaved(t: map<Key, Action>, states: set<string>, tr: map<string, Saved>, s: string)
    requires CommaFreeSources(t) && ReindexedOn(t, t.Keys, Always(), TextOf(), SavedOf(), tr)
    requires s in tr && Keep(tr, states)(s)
    ensures KeyOf()(s) in t
  {
    var k :| k in t.Keys && Always<Key>()(k) && TextOf()(k) == s;
    SplitJoin(k);
  }

  /** A saved transition is loaded as it was. */
  lemma LoadedHas(t: map<Key, Action>, states: set<string>, tr: map<string, Saved>, k: Key)
    requires TableWithin(t, states, Dst()) && Directions(t) && CommaFreeSources(t) && k in t
    requires ReindexedOn(t, t.Keys, Always(), TextOf(), SavedOf(), tr)
    ensures k in Loaded(tr, states) && Loaded(tr, states)[k] == t[k]
  {
    SavedRead(t, states, tr, k);
    var s := KeyText(k);
    assert Kept(tr, states, s) && KeyFrom(s) == k && t[k] == ActionFrom(tr[s]);
    assert Loaded(tr, states)[KeyFrom(s)] == ActionFrom(tr[s]);
  }

  /** A loaded transition was saved. */
  lemma LoadedOnly(t: map<Key, Action>, states: set<string>, tr: map<string, Saved>, j: Key)
    requires CommaFreeSources(t) && ReindexedOn(t, t.Keys, Always(), TextOf(), SavedOf(), tr)
    requires j in Loaded(tr, states)
    ensures j in t
  {
    var s :| s in tr && Kept(tr, states, s) && KeyFrom(s) == j;
    assert Keep(tr, states)(s) && KeyOf()(s) == j;
    ReadSaved(t, states, tr, s);
  }

  /** Two tables with the same entries are equal. */
  lemma SameTables(a: map<Key, Action>, b: map<Key, Action>)
    requires forall k :: k in a ==> k in b && b[k] == a[k]
    requires forall k :: k in b ==> k in a
    ensures a == b
  {
  }

  /**
   * Saving then loading between the same states gives the transitions back,
   * when no source state has a comma in its name.
   */
  lemma TransitionsRoundTrip(t: map<Key, Action>, states: set<string>, tr: map<string, Saved>)
    requires TableWithin(t, states, Dst()) && Directions(t) && CommaFreeSources(t)
    requires ReindexedOn(t, t.Keys, Always(), TextOf(), SavedOf(), tr)
    ensures Loaded(tr, states) == t
  {
    var l := Loaded(tr, states);
    forall k | k in t
      ensures k in l && l[k] == t[k]
    {
      LoadedHas(t, states, tr, k);
    }
    forall j | j in l
      ensures j in t
    {
      LoadedOnly(t, states, tr, j);
    }
    SameTables(t, l);
  }

  /** A source state with a comma in its name is split at the wrong place: its transition is not loaded. */
  lemma CommaInSourceLost()
    ensures SplitKey("a,b,c") == Some(("a", "b,c"))
    ensures Loaded(map["a,b,c" := Items(["a,b", "x", "R"])], {"a,b"}) == map[]
  {
    assert "a,b,c"[1] == ',' && ',' !in "a,b,c"[..1];
    FirstCommaAt("a,b,c", 1);
    assert "a,b,c"[..1] == "a" && "a,b,c"[2..] == "b,c";
  }

  /** The saved blank, or the default one. */
  function SavedBlank(blank: Option<string>): string
  {
    if blank.Some? then blank.value else BLANK
  }

  /** The saved tape alphabet, or just the blank. */
  function SavedTape(tape: Option<set<string>>, blank: string): set<string>
  {
    if tape.Some? then tape.value else {blank}
  }

  /** The record `to_json` writes and `from_json` reads; a missing tape alphabet or blank is `None`. */
  datatype TuringRecord = TuringRecord(states: set<string>, start: Option<string>, finals: set<string>,
                                       inputAlphabet: set<string>, tapeAlphabet: Option<set<string>>,
                                       blank: Option<string>, transitions: map<string, Saved>)

  /**
   * The start and final states are states, transitions run between states
   * and move left or right, and the alphabets hold every symbol read or
   * written.
   */
  ghost predicate WellFormed(states: set<string>, start: Option<string>, finals: set<string>,
                             inputAlphabet: set<string>, tapeAlphabet: set<string>, t: map<Key, Action>)
  {
    && (start.Some? ==> start.value in states) && finals <= states
    && TableWithin(t, states, Dst()) && Directions(t)
    && KeySymbols(t) <= inputAlphabet
    && KeySymbols(t) + Written(t) <= tapeAlphabet
  }

  /** Adding a transition between states with a valid direction, and its symbols to the alphabets, keeps a machine well formed. */
  lemma AddWellFormed(states: set<string>, start: Option<string>, finals: set<string>,
                      inputAlphabet: set<string>, tapeAlphabet: set<string>, t: map<Key, Action>, k: Key, v: Action)
    requires WellFormed(states, start, finals, inputAlphabet, tapeAlphabet, t)
    requires k.0 in states && v.0 in states && IsDirection(v.2)
    ensures WellFormed(states, start, finals, inputAlphabet + {k.1}, tapeAlphabet + {k.1, v.1}, t[k := v])
  {
    KeySymbolsAdd(t, k, v);
    WrittenAdd(t, k, v);
    WithinStep(t, states, k, v);
  }

  /** Renaming a state of a well-formed machine to a free name renames its table and keeps it well formed. */
  lemma RenamedWellFormed(states: set<string>, start: Option<string>, finals: set<string>,
                          inputAlphabet: set<string>, tapeAlphabet: set<string>, t: map<Key, Action>,
                          from: string, to: string, r: map<Key, Action>)
    requires WellFormed(states, start, finals, inputAlphabet, tapeAlphabet, t)
    requires from in states && (to !in states || to == from)
    requires ReindexedOn(t, t.Keys, Always(), RenameKey(from, to), RenameAction(from, to), r)
    requires FreeSource(t, from, to) ==> IsRenamed(t, from, to, RenameAction(from, to), r)
    requires KeySymbols(r) <= KeySymbols(t)
    ensures IsRenamed(t, from, to, RenameAction(from, to), r)
    ensures WellFormed(states - {from} + {to}, if start == Some(from) then Some(to) else start,
                       if from in finals then finals - {from} + {to} else finals, inputAlphabet, tapeAlphabet, r)
  {
    WrittenRenamed(t, from, to, r);
    RenamedWithin(t, from, to, RenameAction(from, to), Dst(), r, states);
  }

  /** A Turing machine as the editor builds it. */
  class MaquinaTuring {
    var states: set<string>
    var start: Option<string>
    var finals: set<string>
    var inputAlphabet: set<string>
    var tapeAlphabet: set<string>
    var blank: string
    var transitions: map<Key, Action>

    /**
     * The start and final states are states, transitions run between states
     * and move left or right, and the alphabets hold every symbol read or
     * written.
     */
    ghost predicate Valid()
      reads this
    {
      WellFormed(states, start, finals, inputAlphabet, tapeAlphabet, transitions)
    }

    /** `if not self.start_state`: no start, or an empty name, means no run. */
    predicate HasStart()
      reads this
    {
      start.Some? && start.value != ""
    }

    constructor ()
      ensures Valid()
      ensures states == {} && start == None && finals == {} && inputAlphabet == {}
      ensures tapeAlphabet == {BLANK} && blank == BLANK && transitions == map[]
    {
      states, start, finals, inputAlphabet := {}, None, {}, {};
      tapeAlphabet, blank, transitions := {BLANK}, BLANK, map[];
    }

    /**
     * `add_state`: the state joins, and the finals when marked final. Its
     * second start clause needs the states to be empty right after one was
     * added, so the start changes exactly when the state is marked start.
     */
    method AddState(state: string, isStart: bool, isFinal: bool)
      modifies this
      ensures states == old(states) + {state}
      ensures start == if isStart then Some(state) else old(start)
      ensures finals == if isFinal then old(finals) + {state} else old(finals)
      ensures inputAlphabet == old(inputAlphabet) && tapeAlphabet == old(tapeAlphabet)
      ensures blank == old(blank) && transitions == old(transitions)
      ensures old(Valid()) ==> Valid()
    {
      var qs := states + {state};
      var newStart := if isStart || (start.None? && qs == {}) then Some(state) else start;
      var newFinals := if isFinal then finals + {state} else finals;
      states, start, finals := qs, newStart, newFinals;
    }

    /**
     * `add_transition`: `ValueError` unless both states exist and the
     * direction is `"L"` or `"R"`, and then nothing changes; otherwise the
     * symbol read joins the input and tape alphabets, the symbol written the
     * tape alphabet, and the transition replaces any other with the same key.
     */
    method AddTransition(src: string, read: string, dst: string, write: string, direction: string)
      returns (status: Status)
      modifies this
      ensures status == if src in old(states) && dst in old(states) && IsDirection(direction) then Ok else ValueError
      ensures status == ValueError ==> unchanged(this)
      ensures status == Ok ==>
        && transitions == old(transitions)[(src, read) := (dst, write, direction)]
        && inputAlphabet == old(inputAlphabet) + {read} && tapeAlphabet == old(tapeAlphabet) + {read, write}
        && states == old(states) && start == old(start) && finals == old(finals) && blank == old(blank)
      ensures old(Valid()) ==> Valid()
    {
      if src !in states || dst !in states {
        return ValueError;
      }
      if direction != "L" && direction != "R" {
        return ValueError;
      }
      status := Ok;
      if Valid() {
        AddWellFormed(states, start, finals, inputAlphabet, tapeAlphabet, transitions, (src, read), (dst, write, direction));
      }
      inputAlphabet, tapeAlphabet := inputAlphabet + {read}, tapeAlphabet + {read, write};
      transitions := transitions[(src, read) := (dst, write, direction)];
    }

    /**
     * `remove_state`: nothing happens for an unknown state; otherwise it
     * leaves the states, the start and the finals, and every transition from
     * or to it goes.
     */
    method RemoveState(q: string)
      modifies this
      ensures q !in old(states) ==> unchanged(this)
      ensures q in old(states) ==>
        && states == old(states) - {q} && finals == old(finals) - {q}
        && start == (if old(start) == Some(q) then None else old(start))
        && transitions == Purged(old(transitions), q, Dst())
        && inputAlphabet == old(inputAlphabet) && tapeAlphabet == old(tapeAlphabet) && blank == old(blank)
      ensures old(Valid()) ==> Valid()
    {
      if q !in states {
        return;
      }
      var t := PurgeTable(transitions, q, Dst());
      PurgedForgets(transitions, q, Dst(), states);
      KeySymbolsSub(t, transitions);
      WrittenSub(t, transitions);
      var newStart := if start == Some(q) then None else start;
      states, start, finals, transitions := states - {q}, newStart, finals - {q}, t;
    }

    /**
     * `rename_state`: `ValueError` when the old name is not a state or the new
     * one is another state; otherwise the state is renamed in the states, the
     * start, the finals and every transition source and next state.
     */
    method RenameState(from: string, to: string) returns (status: Status)
      modifies this
      ensures status == if from !in old(states) || (to in old(states) && to != from) then ValueError else Ok
      ensures status == ValueError ==> unchanged(this)
      ensures status == Ok ==>
        && states == old(states) - {from} + {to}
        && start == (if old(start) == Some(from) then Some(to) else old(start))
        && finals == (if from in old(finals) then old(finals) - {from} + {to} else old(finals))
        && ReindexedOn(old(transitions), old(transitions).Keys, Always(), RenameKey(from, to), RenameAction(from, to), transitions)
        && inputAlphabet == old(inputAlphabet) && tapeAlphabet == old(tapeAlphabet) && blank == old(blank)
      ensures old(Valid()) && status == Ok ==> IsRenamed(old(transitions), from, to, RenameAction(from, to), transitions)
      ensures old(Valid()) ==> Valid()
    {
      if from !in states || (to in states && to != from) {
        return ValueError;
      }
      status := Ok;
      var t := RenameTable(transitions, from, to, RenameAction(from, to));
      if Valid() {
        RenamedWellFormed(states, start, finals, inputAlphabet, tapeAlphabet, transitions, from, to, t);
      }
      var newStart := if start == Some(from) then Some(to) else start;
      var newFinals := if from in finals then finals - {from} + {to} else finals;
      states, start, finals, transitions := states - {from} + {to}, newStart, newFinals, t;
    }

    /**
     * `simulate_history`: without a start, no history and rejected. Otherwise
     * the run from the start state on the input's tape with the head at 0,
     * within `max_steps` steps: the history has at most `max_steps + 1`
     * configurations, one more than that exactly when the steps ran out, and
     * a final start state accepts at once when any step is allowed.
     */
    method SimulateHistory(input: string, maxSteps: int) returns (history: seq<Config>, verdict: Verdict)
      ensures !HasStart() ==> history == [] && verdict == Rejected
      ensures HasStart() ==>
        var c0 := Config(start.value, InitialTape(input), 0);
        var r := Steps(transitions, finals, blank, c0, Budget(maxSteps));
        && history == [c0] + r.configs && verdict == r.verdict
        && (forall i :: 0 <= i < |history| - 1 ==> Step(transitions, blank, history[i]) == Some(history[i + 1]))
        && (verdict == Looped <==> |history| == Budget(maxSteps) + 1)
        && (verdict == Accepted ==> history[|history| - 1].state in finals)
        && (verdict == Rejected ==> Step(transitions, blank, history[|history| - 1]).None?)
        && (start.value in finals && maxSteps > 0 ==> history == [c0] && verdict == Accepted)
      ensures |history| <= Budget(maxSteps) + 1
    {
      if !HasStart() {
        return [], Rejected;
      }
      var tape := LoadTape(input);
      var c0 := Config(start.value, tape, 0);
      history, verdict := RunSteps(transitions, finals, blank, c0, maxSteps);
      RunShape(transitions, finals, blank, c0, Budget(maxSteps), Steps(transitions, finals, blank, c0, Budget(maxSteps)), history);
    }

    /** `simulate`: accepted within the default budget; false without a start. */
    method Simulate(input: string) returns (accepted: bool)
      ensures accepted <==>
        HasStart() && Steps(transitions, finals, blank, Config(start.value, InitialTape(input), 0), DEFAULT_MAX_STEPS).verdict == Accepted
    {
      var _, verdict := SimulateHistory(input, DEFAULT_MAX_STEPS);
      accepted := verdict == Accepted;
    }

    /**
     * `to_json`: every field as it is, each transition under the text of its
     * state and symbol joined by a comma; transitions whose texts coincide
     * overwrite one another.
     */
    method ToJson() returns (rec: TuringRecord)
      ensures rec.states == states && rec.start == start && rec.finals == finals && rec.inputAlphabet == inputAlphabet
      ensures rec.tapeAlphabet == Some(tapeAlphabet) && rec.blank == Some(blank)
      ensures ReindexedOn(transitions, transitions.Keys, Always(), TextOf(), SavedOf(), rec.transitions)
    {
      var tr := Reindex(transitions, Always(), TextOf(), SavedOf());
      rec := TuringRecord(states, start, finals, inputAlphabet, Some(tapeAlphabet), Some(blank), tr);
    }
  }

  /**
   * `from_json`: the sets, the start and the blank are taken as saved (the
   * tape alphabet defaulting to the blank alone); then every saved transition
   * is added, and one that is malformed or rejected by `add_transition` is
   * skipped.
   */
  method FromJson(rec: TuringRecord) returns (m: MaquinaTuring)
    ensures fresh(m)
    ensures m.states == rec.states && m.start == rec.start && m.finals == rec.finals
    ensures m.blank == SavedBlank(rec.blank)
    ensures m.transitions == Loaded(rec.transitions, rec.states)
    ensures m.inputAlphabet == rec.inputAlphabet + KeySymbols(m.transitions)
    ensures m.tapeAlphabet == SavedTape(rec.tapeAlphabet, m.blank) + KeySymbols(m.transitions) + Written(m.transitions)
    ensures (rec.start.Some? ==> rec.start.value in rec.states) && rec.finals <= rec.states ==> m.Valid()
  {
    m := new MaquinaTuring();
    var blank := SavedBlank(rec.blank);
    m.states, m.start, m.finals, m.inputAlphabet := rec.states, rec.start, rec.finals, rec.inputAlphabet;
    m.blank, m.tapeAlphabet := blank, SavedTape(rec.tapeAlphabet, blank);
    ghost var done: set<string> := {};
    LoadStart(m, rec);
    var todo := rec.transitions.Keys;
    while todo != {}
      invariant todo == rec.transitions.Keys - done
      invariant Loading(m, rec, done)
      decreases todo
    {
      var s :| s in todo;
      LoadSaved(m, rec, s, done);
      done, todo := done + {s}, todo - {s};
    }
    LoadedAll(rec, m.inputAlphabet, m.tapeAlphabet, m.transitions);
  }

  /**
   * What the loop of `from_json` keeps about the transitions and alphabets:
   * the kept transitions among those read so far, each between states with a
   * valid direction, and the alphabets as saved plus every symbol read or
   * written by them.
   */
  ghost predicate LoadedSoFar(rec: TuringRecord, done: set<string>, input: set<string>, tape: set<string>, t: map<Key, Action>)
  {
    && done <= rec.transitions.Keys
    && ReindexedOn(rec.transitions, done, Keep(rec.transitions, rec.states), KeyOf(), ActionOf(), t)
    && TableWithin(t, rec.states, Dst()) && Directions(t)
    && input == rec.inputAlphabet + KeySymbols(t)
    && tape == SavedTape(rec.tapeAlphabet, SavedBlank(rec.blank)) + KeySymbols(t) + Written(t)
  }

  /** What the loop of `from_json` keeps: the fields as saved, and the transitions and alphabets loaded so far. */
  ghost predicate Loading(m: MaquinaTuring, rec: TuringRecord, done: set<string>)
    reads m
  {
    && m.states == rec.states && m.start == rec.start && m.finals == rec.finals
    && m.blank == SavedBlank(rec.blank)
    && LoadedSoFar(rec, done, m.inputAlphabet, m.tapeAlphabet, m.transitions)
  }

  /** One saved transition more: it is added when kept, and nothing changes otherwise. */
  lemma LoadStep(rec: TuringRecord, done: set<string>, s: string, input: set<string>, tape: set<string>, t: map<Key, Action>,
                 input': set<string>, tape': set<string>, t': map<Key, Action>)
    requires LoadedSoFar(rec, done, input, tape, t) && s in rec.transitions && s !in done
    requires Kept(rec.transitions, rec.states, s) ==>
      var k := KeyFrom(s); var v := ActionFrom(rec.transitions[s]);
      t' == t[k := v] && input' == input + {k.1} && tape' == tape + {k.1, v.1}
    requires !Kept(rec.transitions, rec.states, s) ==> t' == t && input' == input && tape' == tape
    ensures LoadedSoFar(rec, done + {s}, input', tape', t')
  {
    var tr := rec.transitions;
    ReindexStep(tr, done, Keep(tr, rec.states), KeyOf(), ActionOf(), t, s);
    assert Keep(tr, rec.states)(s) == Kept(tr, rec.states, s);
    if Kept(tr, rec.states, s) {
      var k := KeyFrom(s);
      var v := ActionFrom(tr[s]);
      assert KeyOf()(s) == k && ActionOf()(tr[s]) == v;
      assert k.0 in rec.states && v.0 in rec.states && IsDirection(v.2);
      NotLoadedYet(tr, rec.states, done, t, s);
      AlphabetsStep(rec.inputAlphabet, SavedTape(rec.tapeAlphabet, SavedBlank(rec.blank)), t, k, v);
      WithinStep(t, rec.states, k, v);
    }
  }

  /** Adding a transition under a new key adds its symbols to the alphabets. */
  lemma AlphabetsStep(input0: set<string>, tape0: set<string>, t: map<Key, Action>, k: Key, v: Action)
    requires k !in t
    ensures input0 + KeySymbols(t) + {k.1} == input0 + KeySymbols(t[k := v])
    ensures tape0 + KeySymbols(t) + Written(t) + {k.1, v.1} == tape0 + KeySymbols(t[k := v]) + Written(t[k := v])
  {
    KeySymbolsAdd(t, k, v);
    WrittenAdd(t, k, v);
  }

  /** Adding a transition between states with a valid direction keeps the table between states and moving left or right. */
  lemma WithinStep(t: map<Key, Action>, states: set<string>, k: Key, v: Action)
    requires TableWithin(t, states, Dst()) && Directions(t)
    requires k.0 in states && v.0 in states && IsDirection(v.2)
    ensures TableWithin(t[k := v], states, Dst()) && Directions(t[k := v])
  {
  }

  /** Before any saved transition is read: no transitions, and the alphabets as saved. */
  lemma LoadStart(m: MaquinaTuring, rec: TuringRecord)
    requires m.states == rec.states && m.start == rec.start && m.finals == rec.finals
    requires m.blank == SavedBlank(rec.blank) && m.inputAlphabet == rec.inputAlphabet
    requires m.tapeAlphabet == SavedTape(rec.tapeAlphabet, m.blank) && m.transitions == map[]
    ensures Loading(m, rec, {})
  {
    var e: map<Key, Action> := map[];
    assert KeySymbols(e) == {} && Written(e) == {};
  }

  /**
   * After every saved transition is read, the table is the loaded one, and
   * the machine is well formed when its start and final states are states.
   */
  lemma LoadedAll(rec: TuringRecord, input: set<string>, tape: set<string>, t: map<Key, Action>)
    requires LoadedSoFar(rec, rec.transitions.Keys, input, tape, t)
    ensures t == Loaded(rec.transitions, rec.states)
    ensures (rec.start.Some? ==> rec.start.value in rec.states) && rec.finals <= rec.states ==>
      WellFormed(rec.states, rec.start, rec.finals, input, tape, t)
  {
    KeepSplitsApart(rec.transitions, rec.states);
    LoadedReindexes(rec.transitions, rec.states);
    ReindexedUnique(rec.transitions, Keep(rec.transitions, rec.states), KeyOf(), ActionOf(), t,
                    Loaded(rec.transitions, rec.states));
  }

  /** One turn of the loop of `from_json`: split the key, unpack the value, then `add_transition`; skip on any error. */
  method LoadSaved(m: MaquinaTuring, rec: TuringRecord, s: string, ghost done: set<string>)
    requires Loading(m, rec, done) && s in rec.transitions && s !in done
    modifies m
    ensures Loading(m, rec, done + {s})
  {
    ghost var input, tape, t := m.inputAlphabet, m.tapeAlphabet, m.transitions;
    var k := SplitKey(s);
    if k.None? {
      LoadStep(rec, done, s, input, tape, t, input, tape, t);
      return;
    }
    var v := rec.transitions[s];
    if !v.Items? || |v.items| != 3 {
      LoadStep(rec, done, s, input, tape, t, input, tape, t);
      return;
    }
    assert KeyFrom(s) == k.value && ActionFrom(v) == (v.items[0], v.items[1], v.items[2]);
    var status := m.AddTransition(k.value.0, k.value.1, v.items[0], v.items[1], v.items[2]);
    LoadStep(rec, done, s, input, tape, t, m.inputAlphabet, m.tapeAlphabet, m.transitions);
  }

  /** A name not read yet splits into a key the load has not written. */
  lemma NotLoadedYet(tr: map<string, Saved>, states: set<string>, done: set<string>, r: map<Key, Action>, s: string)
    requires ReindexedOn(tr, done, Keep(tr, states), KeyOf(), ActionOf(), r)
    requires s in tr && s !in done && SplitKey(s).Some?
    ensures SplitKey(s).value !in r
  {
    forall j | j in r
      ensures j != SplitKey(s).value
    {
      var s' :| s' in done && Keep(tr, states)(s') && KeyOf()(s') == j;
      assert KeyText(j) == s';
    }
  }
}
