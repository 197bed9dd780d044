/**
 * Vocabulary shared by all the engines: optional values, transition labels with
 * a distinguished empty move, and the greedy longest-match rule that the
 * simulators use to pick the next (possibly multi-character) input symbol.
 */
module Symbols {

  datatype Option<T> = None | Some(value: T)

  /** How an editing operation ended: normally, or by raising `ValueError` or `KeyError`. */
  datatype Status = Ok | ValueError | KeyError

  /**
   * A transition label of a finite or pushdown automaton. The engines store labels
   * as strings and reserve one literal for the empty move ("&" in the newer
   * engines, "ε" in the older finite automaton); here that literal becomes `Eps`.
   */
  datatype Label = Eps | Sym(text: string)

  /** Reads a label typed by the user; `eps` is the engine's epsilon literal. */
  function ToLabel(s: string, eps: string): (l: Label)
    ensures l.Eps? <==> s == eps
    ensures l.Sym? ==> l.text == s
  {
    if s == eps then Eps else Sym(s)
  }

  /** The string under which a label is stored in a saved file. */
  function LabelText(l: Label, eps: string): string
  {
    match l
    case Eps => eps
    case Sym(t) => t
  }

  /** A label that `ToLabel` can produce: a symbol never spells the epsilon literal. */
  predicate ProperLabel(l: Label, eps: string)
  {
    l.Sym? ==> l.text != eps
  }

  /** Reading back the saved text of a proper label gives the label again. */
  lemma LabelTextRoundTrip(l: Label, eps: string)
    requires ProperLabel(l, eps)
    ensures ToLabel(LabelText(l, eps), eps) == l
  {
  }

  /**
   * The longest member of `cands` of length at most `k` that is a prefix of `rest`.
   * Two different strings of the same length cannot both be prefixes of `rest`,
   * so "sort by length, longest first, take the first prefix" has one answer.
   */
  function LongestPrefixUpTo(cands: set<string>, rest: string, k: nat): (r: Option<string>)
    requires k <= |rest|
    ensures r.Some? ==> r.value in cands && r.value <= rest && |r.value| <= k
    decreases k
  {
    if rest[..k] in cands then Some(rest[..k])
    else if k == 0 then None
    else LongestPrefixUpTo(cands, rest, k - 1)
  }

  /**
   * No candidate prefix of `rest` of length at most `k` is longer than the one
   * chosen, and when none is chosen every candidate prefix is longer than `k`.
   */
  lemma {:induction false} LongestPrefixUpToIsLongest(cands: set<string>, rest: string, k: nat)
    requires k <= |rest|
    ensures var r := LongestPrefixUpTo(cands, rest, k);
      (r.Some? ==> forall c :: c in cands && c <= rest && |c| <= k ==> |c| <= |r.value|) &&
      (r.None? ==> forall c :: c in cands && c <= rest ==> |c| > k)
    decreases k
  {
    if rest[..k] !in cands {
      assert forall c :: c <= rest ==> c == rest[..|c|];
      if k > 0 {
        LongestPrefixUpToIsLongest(cands, rest, k - 1);
      }
    }
  }

  /** The label chosen by the greedy rule: the longest candidate that prefixes `rest`. */
  function LongestMatch(cands: set<string>, rest: string): (r: Option<string>)
    ensures r.Some? ==> r.value in cands && r.value <= rest
  {
    LongestPrefixUpTo(cands, rest, |rest|)
  }

  /** The greedy choice is a candidate prefix at least as long as every other one; none exists when it fails. */
  lemma LongestMatchIsMaximal(cands: set<string>, rest: string)
    ensures var r := LongestMatch(cands, rest);
      (r.Some? ==> forall c :: c in cands && c <= rest ==> |c| <= |r.value|) &&
      (r.None? ==> forall c :: c in cands ==> !(c <= rest))
  {
    LongestPrefixUpToIsLongest(cands, rest, |rest|);
  }

  /** Two prefixes of one string with the same length are the same string. */
  lemma PrefixesOfSameLength(a: string, b: string, rest: string)
    requires a <= rest && b <= rest && |a| == |b|
    ensures a == b
  {
    assert a == rest[..|a|] && b == rest[..|b|];
  }

  /**
   * The greedy choice is characterised by its two defining facts: a candidate
   * prefix of `rest`, at least as long as every other candidate prefix.
   */
  lemma LongestMatchIsTheLongest(cands: set<string>, rest: string, m: string)
    requires m in cands && m <= rest
    requires forall c :: c in cands && c <= rest ==> |c| <= |m|
    ensures LongestMatch(cands, rest) == Some(m)
  {
    var r := LongestMatch(cands, rest);
    LongestMatchIsMaximal(cands, rest);
    assert |m| <= |rest|;
    assert r.Some?;
    assert |r.value| == |m|;
    PrefixesOfSameLength(r.value, m, rest);
  }

  /**
   * Picks the label the simulators consume next. The engines sort the candidate
   * labels longest first and take the first one that prefixes the rest of the
   * input; one scan keeping the longest prefix seen so far finds the same label.
   */
  method PickLongest(cands: set<string>, rest: string) returns (m: Option<string>)
    ensures m == LongestMatch(cands, rest)
  {
    m := None;
    var todo := cands;
    while todo != {}
      invariant todo <= cands
      invariant m.Some? ==> m.value in cands && m.value <= rest
      invariant forall c :: c in cands - todo && c <= rest ==> m.Some? && |c| <= |m.value|
      decreases todo
    {
      var c :| c in todo;
      if c <= rest && (m.None? || |c| > |m.value|) {
        m := Some(c);
      }
      todo := todo - {c};
    }
    if m.Some? {
      LongestMatchIsTheLongest(cands, rest, m.value);
    }
  }

  /** The index of the first comma of `s`, if any. */
  function FirstComma(s: string): (r: Option<nat>)
    ensures r.Some? ==> r.value < |s|
  {
    if s == [] then None
    else if s[0] == ',' then Some(0)
    else match FirstComma(s[1..])
      case None => None
      case Some(i) => Some(i + 1)
  }

  /** The index found holds a comma and none comes before it; without one, there is no comma at all. */
  lemma {:induction false} FirstCommaSpec(s: string)
    ensures var r := FirstComma(s);
      && (r.Some? ==> r.value < |s| && s[r.value] == ',' && ',' !in s[..r.value])
      && (r.None? ==> ',' !in s)
  {
    if s != [] && s[0] != ',' {
      FirstCommaSpec(s[1..]);
      if FirstComma(s[1..]).Some? {
        var i := FirstComma(s[1..]).value;
        assert s[..i + 1] == [s[0]] + s[1..][..i];
      } else {
        assert s == [s[0]] + s[1..];
      }
    }
  }

  /** A string is its part before a comma, the comma and its part after. */
  lemma Cut(s: string, i: nat)
    requires i < |s| && s[i] == ','
    ensures s == s[..i] + "," + s[i + 1..]
  {
    assert s == s[..i] + [s[i]] + s[i + 1..];
  }

  /** A comma with none before it is the first comma. */
  lemma {:induction false} FirstCommaAt(s: string, i: nat)
    requires i < |s| && s[i] == ',' && ',' !in s[..i]
    ensures FirstComma(s) == Some(i)
  {
    if i > 0 {
      assert s[0] == s[..i][0];
      assert s[1..][..i - 1] == s[..i][1..];
      FirstCommaAt(s[1..], i - 1);
    }
  }
}
