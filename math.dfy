/**
 * The formula front end: user-variable macro expansion, parameter
 * extraction with the quote-to-bracket rewrite, parameter lookup through the
 * map snapshot, normalisation of the evaluator's result, the per-map cache,
 * the log-once sets and the version check.
 *
 * The expression evaluator (NCalc) is outside the model: it is given as an
 * Evaluator value holding two functions.
 */
module Math {
  import opened Wrappers
  import opened Text
  import opened World
  import opened CachedMap

  // ---------------------------------------------------------------------------
  // Version check
  // ---------------------------------------------------------------------------

  const Version: string := "1.4.3"
  const VersionParts: seq<string> := ["1", "4", "3"]

  lemma SplitVersion()
    ensures Split(Version, '.') == VersionParts
  {
    SplitWithoutSeparator("3", '.');
    SplitAtFirst("4", '.', "3");
    assert "4.3" == "4" + ['.'] + "3";
    SplitAtFirst("1", '.', "4.3");
    assert Version == "1" + ['.'] + "4.3";
  }

  /** The answer of IsNewImportantVersion, or the IndexOutOfRangeException it can throw. */
  datatype VersionCheck = Answer(isNew: bool) | IndexOutOfRange

  /**
   * Compares the first three dot-separated parts with the mod's version,
   * left to right, stopping at the first difference; a missing part that
   * has to be read throws.
   */
  function IsNewImportantVersion(toCheck: string): VersionCheck
  {
    SplitVersion();
    var x := Split(Version, '.');
    var y := Split(toCheck, '.');
    if x[0] != y[0] then Answer(true)
    else if |y| < 2 then IndexOutOfRange
    else if x[1] != y[1] then Answer(true)
    else if |y| < 3 then IndexOutOfRange
    else Answer(x[2] != y[2])
  }

  /** The check as written: "not new" exactly for the same first three parts, a throw for a cut-off prefix. */
  lemma IsNewImportantVersionCases(toCheck: string)
    ensures var y := Split(toCheck, '.');
            (IsNewImportantVersion(toCheck) == Answer(false) <==> |y| >= 3 && y[..3] == VersionParts)
            && (IsNewImportantVersion(toCheck) == IndexOutOfRange <==> |y| < 3 && y == VersionParts[..|y|])
  {
    SplitVersion();
    var y := Split(toCheck, '.');
    if |y| >= 3 && y[..3] == VersionParts {
      assert y[0] == y[..3][0] && y[1] == y[..3][1] && y[2] == y[..3][2];
    }
    if |y| == 1 && y[0] == "1" {
      assert y == VersionParts[..1];
    }
    if |y| == 2 && y[0] == "1" && y[1] == "4" {
      assert y == VersionParts[..2];
    }
    if |y| >= 3 && y[0] == "1" && y[1] == "4" && y[2] == "3" {
      assert y[..3] == VersionParts;
    }
  }

  /** "1.4" is cut short: the comparison reads a third part that is not there. */
  lemma ShortVersionThrows()
    ensures IsNewImportantVersion("1.4") == IndexOutOfRange
  {
    SplitWithoutSeparator("4", '.');
    SplitAtFirst("1", '.', "4");
    assert "1.4" == "1" + ['.'] + "4";
    SplitVersion();
  }

  /** The check as intended: new unless the first three parts are all present and equal. */
  function IsNewImportantVersionTotal(toCheck: string): (isNew: bool)
  {
    var y := Split(toCheck, '.');
    !(|y| >= 3 && y[..3] == VersionParts)
  }

  /** The corrected check agrees with the original wherever the original answers, and never throws. */
  lemma IsNewImportantVersionTotalAgrees(toCheck: string)
    ensures IsNewImportantVersion(toCheck).Answer? ==>
      IsNewImportantVersionTotal(toCheck) == IsNewImportantVersion(toCheck).isNew
    ensures IsNewImportantVersion(toCheck) == IndexOutOfRange ==> IsNewImportantVersionTotal(toCheck)
  {
    IsNewImportantVersionCases(toCheck);
  }

  // ---------------------------------------------------------------------------
  // User variables
  // ---------------------------------------------------------------------------

  /** A variable reference: its position, its length and the name between the prefix and the closing quote. */
  datatype VarRef = VarRef(index: nat, length: nat, name: string)

  /** Where the name starts when `"v.` or `"variables.` sits at `p`. */
  function NameStart(s: string, p: nat): (q: Option<nat>)
    ensures q.Some? ==> p + 3 <= q.value <= |s|
    ensures q.Some? ==> s[p..q.value] == "\"v." || s[p..q.value] == "\"variables."
  {
    if p + 3 <= |s| && s[p] == '"' && s[p + 1] == 'v' && s[p + 2] == '.' then Some(p + 3)
    else if p + 11 <= |s| && s[p] == '"' && s[p + 1..p + 11] == "variables." then Some(p + 11)
    else None
  }

  /** The variable reference that starts exactly at `p`, if any: a non-empty name up to the first quote, on one line. */
  function RefAt(s: string, p: nat): (r: Option<VarRef>)
    ensures r.Some? ==> r.value.index == p && r.value.length >= 5 && p + r.value.length <= |s|
    ensures r.Some? ==> |r.value.name| >= 1 && '\n' !in r.value.name
    ensures r.Some? ==> NameStart(s, p).Some? && s[p] == '"' && s[p + r.value.length - 1] == '"'
                        && r.value.name == s[NameStart(s, p).value..p + r.value.length - 1]
    ensures r.Some? ==> forall k :: 1 <= k < |r.value.name| ==> r.value.name[k] != '"'
  {
    match NameStart(s, p)
    case None => None
    case Some(q) =>
      if q < |s| && s[q] != '\n' then
        match CloseQuote(s, q + 1)
        case Some(c) => Some(VarRef(p, c + 1 - p, s[q..c]))
        case None => None
      else None
  }

  /** The leftmost variable reference at or after `from`. */
  function FindVarRef(s: string, from: nat): (r: Option<VarRef>)
    decreases |s| - from
    ensures r.Some? ==> from <= r.value.index && r.value.length >= 5 && r.value.index + r.value.length <= |s|
  {
    if from >= |s| then None
    else
      match RefAt(s, from)
      case Some(v) => Some(v)
      case None => FindVarRef(s, from + 1)
  }

  /** FindVarRef reports a reference that really starts where it says. */
  lemma {:induction false} FindVarRefFound(s: string, from: nat)
    requires FindVarRef(s, from).Some?
    ensures RefAt(s, FindVarRef(s, from).value.index) == FindVarRef(s, from)
    decreases |s| - from
  {
    if RefAt(s, from).None? {
      FindVarRefFound(s, from + 1);
    }
  }

  /** No reference starts between `from` and the one FindVarRef reports (or the end of the text). */
  lemma {:induction false} FindVarRefLeftmost(s: string, from: nat, p: nat)
    requires from <= p
    requires FindVarRef(s, from).Some? ==> p < FindVarRef(s, from).value.index
    ensures RefAt(s, p).None?
    decreases p - from
  {
    if from < p {
      FindVarRefLeftmost(s, from + 1, p);
    }
  }

  /** The result of expansion: the text, or the failure that ends it. */
  datatype Expansion = Expanded(text: string) | Unregistered | RecursionLimit

  /** Expansion is refused from this nesting depth on. */
  const MaxDepth: nat := 5

  function DepthLeft(level: nat): nat
  {
    if level < MaxDepth then MaxDepth - level else 0
  }

  /** ParseUserVariables on `s` entered at nesting depth `level`. */
  ghost function Expand(s: string, level: nat, vars: map<string, string>): Expansion
    decreases DepthLeft(level), 2, 0
  {
    if level >= MaxDepth then RecursionLimit else ExpandFrom(s, 0, level, vars)
  }

  /** The expansion loop, scanning on from `from`. */
  ghost function ExpandFrom(s: string, from: nat, level: nat, vars: map<string, string>): Expansion
    requires from <= |s| && level < MaxDepth
    decreases DepthLeft(level), 1, |s| - from, 1
  {
    ExpandAt(s, from, FindVarRef(s, from), level, vars)
  }

  /** One turn of the expansion loop, given the reference `m` found from `from`. */
  ghost function ExpandAt(s: string, from: nat, m: Option<VarRef>, level: nat, vars: map<string, string>): Expansion
    requires from <= |s| && level < MaxDepth && m == FindVarRef(s, from)
    decreases DepthLeft(level), 1, |s| - from, 0
  {
    match m
    case None => Expanded(s)
    case Some(r) =>
      if r.name !in vars then Unregistered
      else
        match Expand(vars[r.name], level + 1, vars)
        case Unregistered => Unregistered
        case RecursionLimit => RecursionLimit
        case Expanded(e) => ExpandFrom(Substitute(s, r, e), r.index + |e| + 2, level, vars)
  }

  /** `s` with its part from i to j replaced by `x` (String.Remove followed by String.Insert). */
  function Splice(s: string, i: nat, j: nat, x: string): (t: string)
    requires i <= j <= |s|
    decreases i
    ensures |t| == |s| - (j - i) + |x|
  {
    if i == 0 then x + s[j..] else [s[0]] + Splice(s[1..], i - 1, j - 1, x)
  }

  /** Splicing keeps what comes before i and after j. */
  lemma {:induction false} SpliceParts(s: string, i: nat, j: nat, x: string)
    requires i <= j <= |s|
    decreases i
    ensures Splice(s, i, j, x) == s[..i] + x + s[j..]
  {
    if i > 0 {
      SpliceParts(s[1..], i - 1, j - 1, x);
      assert s[1..][..i - 1] == s[1..i];
      assert s[1..][j - 1..] == s[j..];
      assert [s[0]] + s[1..i] == s[..i];
    }
  }

  /** The text with a reference replaced by an expansion in parentheses. */
  function Substitute(s: string, r: VarRef, e: string): (t: string)
    requires r.index + r.length <= |s|
    ensures |t| == |s| - r.length + |e| + 2
  {
    Splice(s, r.index, r.index + r.length, "(" + e + ")")
  }

  /** The expansion loop starts its turn with the leftmost reference. */
  lemma ExpandFromUnfolds(s: string, from: nat, level: nat, vars: map<string, string>)
    requires from <= |s| && level < MaxDepth
    ensures ExpandFrom(s, from, level, vars) == ExpandAt(s, from, FindVarRef(s, from), level, vars)
  {
  }

  /** A turn of the expansion loop that meets an unregistered name. */
  lemma ExpandAtUnregistered(s: string, from: nat, level: nat, vars: map<string, string>, r: VarRef)
    requires from <= |s| && level < MaxDepth && FindVarRef(s, from) == Some(r) && r.name !in vars
    ensures ExpandAt(s, from, Some(r), level, vars) == Unregistered
  {
  }

  /** A turn of the expansion loop whose variable fails to expand. */
  lemma ExpandAtInnerFails(s: string, from: nat, level: nat, vars: map<string, string>, r: VarRef)
    requires from <= |s| && level < MaxDepth && FindVarRef(s, from) == Some(r) && r.name in vars
    requires !Expand(vars[r.name], level + 1, vars).Expanded?
    ensures ExpandAt(s, from, Some(r), level, vars) == Expand(vars[r.name], level + 1, vars)
  {
  }

  /** A turn of the expansion loop that substitutes and goes on scanning after the inserted text. */
  lemma ExpandAtSubstitutes(s: string, from: nat, level: nat, vars: map<string, string>, r: VarRef, e: string,
                            t: string, next: nat)
    requires from <= |s| && level < MaxDepth && FindVarRef(s, from) == Some(r) && r.name in vars
    requires Expand(vars[r.name], level + 1, vars) == Expanded(e)
    requires t == Substitute(s, r, e) && next == r.index + |e| + 2
    ensures next <= |t| && |t| - next < |s| - from
    ensures ExpandAt(s, from, Some(r), level, vars) == ExpandAt(t, next, FindVarRef(t, next), level, vars)
  {
    ExpandAtContinues(s, from, level, vars, r, e);
    ExpandFromUnfolds(t, next, level, vars);
  }

  /** A substituting turn of the expansion loop goes on with the scan of the new text. */
  lemma ExpandAtContinues(s: string, from: nat, level: nat, vars: map<string, string>, r: VarRef, e: string)
    requires from <= |s| && level < MaxDepth && FindVarRef(s, from) == Some(r) && r.name in vars
    requires Expand(vars[r.name], level + 1, vars) == Expanded(e)
    ensures r.index + |e| + 2 <= |Substitute(s, r, e)|
    ensures ExpandAt(s, from, Some(r), level, vars) == ExpandFrom(Substitute(s, r, e), r.index + |e| + 2, level, vars)
  {
  }

  /**
   * Replaces each variable reference, left to right, by its own expansion in
   * parentheses; scanning resumes after the inserted text.
   */
  method ParseUserVariables(str: string, level: nat, vars: map<string, string>) returns (r: Expansion)
    ensures r == Expand(str, level, vars)
    decreases DepthLeft(level)
  {
    if level >= MaxDepth {
      return RecursionLimit;
    }
    var s := str;
    var from: nat := 0;
    var m := FindVarRef(s, 0);
    assert Expand(str, level, vars) == ExpandFrom(s, 0, level, vars);
    while m.Some?
      invariant from <= |s|
      invariant m == FindVarRef(s, from)
      invariant ExpandAt(s, from, m, level, vars) == Expand(str, level, vars)
      decreases |s| - from
    {
      var ref := m.value;
      if ref.name !in vars {
        ExpandAtUnregistered(s, from, level, vars, ref);
        return Unregistered;
      }
      var inner := ParseUserVariables(vars[ref.name], level + 1, vars);
      if !inner.Expanded? {
        ExpandAtInnerFails(s, from, level, vars, ref);
        return inner;
      }
      ghost var before, start := s, from;
      s := Substitute(s, ref, inner.text);
      from := ref.index + |inner.text| + 2;
      m := FindVarRef(s, from);
      ExpandAtSubstitutes(before, start, level, vars, ref, inner.text, s, from);
    }
    return Expanded(s);
  }

  /** Text without references comes back unchanged. */
  lemma NoReferencesUnchanged(s: string, level: nat, vars: map<string, string>)
    requires level < MaxDepth && FindVarRef(s, 0).None?
    ensures Expand(s, level, vars) == Expanded(s)
  {
    ExpandFromUnfolds(s, 0, level, vars);
  }

  /** A first reference to an unregistered name fails the expansion. */
  lemma UnregisteredReferenceFails(s: string, level: nat, vars: map<string, string>)
    requires level < MaxDepth && FindVarRef(s, 0).Some? && FindVarRef(s, 0).value.name !in vars
    ensures Expand(s, level, vars) == Unregistered
  {
    ExpandFromUnfolds(s, 0, level, vars);
  }

  /** A variable whose equation first refers to itself can never be expanded, at any depth. */
  lemma {:induction false} SelfReferenceHitsLimit(n: string, level: nat, vars: map<string, string>)
    requires n in vars && FindVarRef(vars[n], 0).Some? && FindVarRef(vars[n], 0).value.name == n
    ensures Expand(vars[n], level, vars) == RecursionLimit
    decreases DepthLeft(level)
  {
    if level < MaxDepth {
      SelfReferenceHitsLimit(n, level + 1, vars);
      ExpandFromUnfolds(vars[n], 0, level, vars);
    }
  }

  /** The reference text `"v.<name>"`. */
  function ShortRef(name: string): string
  {
    "\"v." + name + "\""
  }

  /** `"v.<name>"` is a reference to `name` when the name is one line without quotes. */
  lemma ShortRefIsFound(name: string)
    requires |name| >= 1 && '"' !in name && '\n' !in name
    ensures FindVarRef(ShortRef(name), 0) == Some(VarRef(0, |name| + 4, name))
  {
    var s := ShortRef(name);
    assert s[0..3] == "\"v.";
    assert s[3] == name[0];
    forall i | 4 <= i < |name| + 3
      ensures s[i] != '"' && s[i] != '\n'
    {
      assert s[i] == name[i - 3];
    }
    CloseQuoteFinds(s, 4, |name| + 3);
    assert s[3..|name| + 3] == name;
  }

  /** The canonical self-reference: a variable whose equation is `"v.<its own name>"`. */
  lemma SelfReferenceFails(n: string, level: nat, vars: map<string, string>)
    requires |n| >= 1 && '"' !in n && '\n' !in n
    requires n in vars && vars[n] == ShortRef(n)
    ensures Expand(vars[n], level, vars) == RecursionLimit
  {
    ShortRefIsFound(n);
    SelfReferenceHitsLimit(n, level, vars);
  }

  /** A lone reference to a variable with a plain equation expands to that equation in parentheses. */
  lemma LoneReferenceIsParenthesised(n: string, vars: map<string, string>)
    requires |n| >= 1 && '"' !in n && '\n' !in n
    requires n in vars && FindVarRef(vars[n], 0).None?
    ensures Expand(ShortRef(n), 0, vars) == Expanded("(" + vars[n] + ")")
  {
    var s := ShortRef(n);
    ShortRefIsFound(n);
    assert Expand(vars[n], 1, vars) == Expanded(vars[n]);
    var equation := "(" + vars[n] + ")";
    SpliceParts(s, 0, |n| + 4, equation);
    assert Substitute(s, VarRef(0, |n| + 4, n), vars[n]) == equation;
    assert ExpandFrom(equation, |equation|, 0, vars) == Expanded(equation);
  }

  // ---------------------------------------------------------------------------
  // Parameters
  // ---------------------------------------------------------------------------

  /** A parameter match: a quoted name (collected without its quotes) or a bare word. */
  datatype Param = Quoted(index: nat, length: nat, inner: string) | Bare(index: nat, length: nat, word: string)

  /** The parameter match that starts exactly at `p`: the quoted form is tried first. */
  function ParamAt(s: string, p: nat): (r: Option<Param>)
    ensures r.Some? ==> r.value.index == p && r.value.length >= 1 && p + r.value.length <= |s|
    ensures r.Some? && r.value.Quoted? ==>
      r.value.length >= 3 && s[p] == '"' && s[p + r.value.length - 1] == '"'
      && r.value.inner == s[p + 1..p + r.value.length - 1]
    ensures r.Some? && r.value.Quoted? ==>
      '\n' !in r.value.inner && forall k :: 1 <= k < |r.value.inner| ==> r.value.inner[k] != '"'
    ensures r.Some? && r.value.Bare? ==>
      r.value.word == s[p..p + r.value.length]
  {
    if p >= |s| then None
    else if s[p] == '"' && p + 1 < |s| && s[p + 1] != '\n' && CloseQuote(s, p + 2).Some? then
      var c := CloseQuote(s, p + 2).value;
      Some(Quoted(p, c + 1 - p, s[p + 1..c]))
    else if IsAlnum(s[p]) then
      var e := AlnumRunEnd(s, p);
      Some(Bare(p, e - p, s[p..e]))
    else None
  }

  /** A bare match is a run of ASCII letters and digits that cannot be extended to the right. */
  lemma BareWordIsAlnum(s: string, p: nat)
    requires ParamAt(s, p).Some? && ParamAt(s, p).value.Bare?
    ensures forall c :: c in ParamAt(s, p).value.word ==> IsAlnum(c)
    ensures var e := p + ParamAt(s, p).value.length; e == |s| || !IsAlnum(s[e])
  {
  }

  /** A non-empty match that lies within a text of length n. */
  predicate Fits(n: nat, m: Param)
  {
    m.length >= 1 && m.index + m.length <= n
  }

  /** A parameter match that fits the text and, when quoted, is delimited by quotes. */
  predicate WellFormed(s: string, m: Param)
  {
    Fits(|s|, m) && (m.Quoted? ==> m.length >= 3 && s[m.index] == '"' && s[m.index + m.length - 1] == '"')
  }

  /** The leftmost parameter match at or after `from`. */
  function NextParam(s: string, from: nat): (r: Option<Param>)
    decreases |s| - from
    ensures r.Some? ==> from <= r.value.index && WellFormed(s, r.value)
  {
    if from >= |s| then None
    else
      match ParamAt(s, from)
      case Some(m) => Some(m)
      case None => NextParam(s, from + 1)
  }

  /** NextParam reports a match that really starts where it says. */
  lemma {:induction false} NextParamFound(s: string, from: nat)
    requires NextParam(s, from).Some?
    ensures ParamAt(s, NextParam(s, from).value.index) == NextParam(s, from)
    decreases |s| - from
  {
    if ParamAt(s, from).None? {
      NextParamFound(s, from + 1);
    }
  }

  /** No parameter match starts between `from` and the one NextParam reports (or the end). */
  lemma {:induction false} NextParamLeftmost(s: string, from: nat, p: nat)
    requires from <= p
    requires NextParam(s, from).Some? ==> p < NextParam(s, from).value.index
    ensures ParamAt(s, p).None?
    decreases p - from
  {
    if from < p {
      NextParamLeftmost(s, from + 1, p);
    }
  }

  /** Well-formed matches, each starting at or after `from` and after the end of the one before. */
  predicate ValidParams(s: string, ps: seq<Param>, from: nat)
    decreases |ps|
  {
    ps == [] || (from <= ps[0].index && WellFormed(s, ps[0]) && ValidParams(s, ps[1..], ps[0].index + ps[0].length))
  }

  /** All parameter matches of `s` from `from` on, as Regex.Matches reports them. */
  function Params(s: string, from: nat): (ps: seq<Param>)
    decreases |s| - from
    ensures ValidParams(s, ps, from)
  {
    match NextParam(s, from)
    case None => []
    case Some(m) =>
      var ps := [m] + Params(s, m.index + m.length);
      assert ps[1..] == Params(s, m.index + m.length);
      ps
  }

  function ParamName(m: Param): string
  {
    if m.Quoted? then m.inner else m.word
  }

  /** The names collected from a list of matches, in order. */
  function ParamNames(ps: seq<Param>): (names: seq<string>)
    decreases |ps|
    ensures |names| == |ps|
  {
    if ps == [] then [] else [ParamName(ps[0])] + ParamNames(ps[1..])
  }

  /** Turns the delimiting quotes of a quoted match that fits the text into '[' and ']'. */
  function Bracket(s: string, m: Param): (r: string)
    ensures |r| == |s|
  {
    if m.Quoted? && Fits(|s|, m) then s[m.index := '['][m.index + m.length - 1 := ']'] else s
  }

  /** The equation after every quoted match has been bracketed, in match order. */
  function Rewrite(s: string, ps: seq<Param>): (r: string)
    decreases |ps|
    ensures |r| == |s|
  {
    if ps == [] then s else Rewrite(Bracket(s, ps[0]), ps[1..])
  }

  /** Every match of a valid list is well formed and starts at or after `from`. */
  lemma {:induction false} ValidParamsElements(s: string, ps: seq<Param>, from: nat)
    requires ValidParams(s, ps, from)
    ensures forall j :: 0 <= j < |ps| ==> from <= ps[j].index && WellFormed(s, ps[j])
    decreases |ps|
  {
    if ps != [] {
      ValidParamsElements(s, ps[1..], ps[0].index + ps[0].length);
      forall j | 1 <= j < |ps|
        ensures from <= ps[j].index && WellFormed(s, ps[j])
      {
        assert ps[j] == ps[1..][j - 1];
      }
    }
  }

  /** Validity of matches depends only on the text from `from` on. */
  lemma {:induction false} ValidParamsFrom(s: string, t: string, ps: seq<Param>, from: nat)
    requires ValidParams(s, ps, from) && |t| == |s|
    requires forall k :: from <= k < |s| ==> t[k] == s[k]
    ensures ValidParams(t, ps, from)
    decreases |ps|
  {
    if ps != [] {
      ValidParamsFrom(s, t, ps[1..], ps[0].index + ps[0].length);
    }
  }

  /** Rewriting changes only quote characters, into '[' or ']', and nothing before the first match. */
  lemma {:induction false} RewriteChangesOnlyQuotes(s: string, ps: seq<Param>, from: nat)
    requires ValidParams(s, ps, from)
    ensures forall k :: 0 <= k < |s| && Rewrite(s, ps)[k] != s[k] ==>
      s[k] == '"' && (Rewrite(s, ps)[k] == '[' || Rewrite(s, ps)[k] == ']')
    ensures forall k :: 0 <= k < from && k < |s| ==> Rewrite(s, ps)[k] == s[k]
    decreases |ps|
  {
    if ps != [] {
      var m := ps[0];
      var end := m.index + m.length;
      var b := Bracket(s, m);
      assert forall k :: 0 <= k < |s| && b[k] != s[k] ==> s[k] == '"' && (b[k] == '[' || b[k] == ']');
      assert forall k :: 0 <= k < |s| && (k < m.index || end <= k) ==> b[k] == s[k];
      ValidParamsFrom(s, b, ps[1..], end);
      RewriteChangesOnlyQuotes(b, ps[1..], end);
      assert Rewrite(s, ps) == Rewrite(b, ps[1..]);
    }
  }

  /**
   * Each quoted match ends up enclosed in brackets, so every match index
   * still points at the same parameter.
   */
  lemma {:induction false} RewriteBracketsQuoted(s: string, ps: seq<Param>, from: nat)
    requires ValidParams(s, ps, from)
    ensures forall j :: 0 <= j < |ps| ==> ps[j].index + ps[j].length <= |s| && ps[j].length >= 1
    ensures forall j :: 0 <= j < |ps| && ps[j].Quoted? ==>
      Rewrite(s, ps)[ps[j].index] == '[' && Rewrite(s, ps)[ps[j].index + ps[j].length - 1] == ']'
    decreases |ps|
  {
    ValidParamsElements(s, ps, from);
    if ps != [] {
      var m := ps[0];
      var rest := ps[1..];
      var end := m.index + m.length;
      var b := Bracket(s, m);
      assert forall k :: 0 <= k < |s| && end <= k ==> b[k] == s[k];
      ValidParamsFrom(s, b, rest, end);
      RewriteBracketsQuoted(b, rest, end);
      RewriteChangesOnlyQuotes(b, rest, end);
      var r := Rewrite(s, ps);
      assert r == Rewrite(b, rest);
      forall j | 0 <= j < |ps| && ps[j].Quoted?
        ensures r[ps[j].index] == '[' && r[ps[j].index + ps[j].length - 1] == ']'
      {
        if j > 0 {
          assert ps[j] == rest[j - 1];
        }
      }
    }
  }

  /** One turn of the match loop: the first remaining match is bracketed and named. */
  lemma ExtractStep(rewritten: string, names: seq<string>, ps: seq<Param>, k: nat)
    requires k < |ps|
    ensures Rewrite(rewritten, ps[k..]) == Rewrite(Bracket(rewritten, ps[k]), ps[k + 1..])
    ensures names + ParamNames(ps[k..]) == (names + [ParamName(ps[k])]) + ParamNames(ps[k + 1..])
  {
    var rest := ps[k..];
    assert rest[0] == ps[k] && rest[1..] == ps[k + 1..];
    assert ParamNames(rest) == [ParamName(ps[k])] + ParamNames(rest[1..]);
  }

  /**
   * DoMath's match loop over Regex.Matches: collects the parameter names and
   * rewrites each quoted match's quotes to brackets in place.
   */
  method ExtractParameters(equation: string) returns (rewritten: string, names: seq<string>)
    ensures names == ParamNames(Params(equation, 0))
    ensures rewritten == Rewrite(equation, Params(equation, 0))
  {
    var ps := Params(equation, 0);
    ValidParamsElements(equation, ps, 0);
    rewritten := equation;
    names := [];
    for k := 0 to |ps|
      invariant |rewritten| == |equation|
      invariant Rewrite(rewritten, ps[k..]) == Rewrite(equation, ps)
      invariant names + ParamNames(ps[k..]) == ParamNames(ps)
    {
      var match_ := ps[k];
      ExtractStep(rewritten, names, ps, k);
      ghost var bracketed := Bracket(rewritten, match_);
      if match_.Bare? {
        names := names + [match_.word];
      } else {
        var i := match_.index;
        var i2 := match_.index + match_.length - 1;
        rewritten := rewritten[i := '['];
        rewritten := rewritten[i2 := ']'];
        names := names + [match_.inner];
      }
      assert rewritten == bracketed;
    }
    assert ps[|ps|..] == [];
  }

  // ---------------------------------------------------------------------------
  // Parameter lookup
  // ---------------------------------------------------------------------------

  /** The parameter table: each name whose variable search succeeds, with its count. */
  ghost function ParamTable(names: seq<string>, pawnsDict: map<string, Pawn>, reg: Registry, ext: Externals): map<string, int>
  {
    if names == [] then map[]
    else
      var table := ParamTable(names[..|names| - 1], pawnsDict, reg, ext);
      var n := names[|names| - 1];
      match Search(n, pawnsDict, reg, ext)
      case Some(v) => table[n := v]
      case None => table
  }

  /** The table holds exactly the names that resolve, each with its resolved count. */
  lemma {:induction false} ParamTableIff(names: seq<string>, pawnsDict: map<string, Pawn>, reg: Registry, ext: Externals)
    ensures forall n :: n in ParamTable(names, pawnsDict, reg, ext) <==> n in names && Search(n, pawnsDict, reg, ext).Some?
    ensures forall n :: n in ParamTable(names, pawnsDict, reg, ext) ==>
      ParamTable(names, pawnsDict, reg, ext)[n] == Search(n, pawnsDict, reg, ext).value
  {
    if names != [] {
      var init := names[..|names| - 1];
      assert names == init + [names[|names| - 1]];
      ParamTableIff(init, pawnsDict, reg, ext);
    }
  }

  /** Adds a value for every parameter the snapshot resolves; with no snapshot, none. */
  method AddParameters(cache: CachedMapData?, names: seq<string>, reg: Registry, ext: Externals)
    returns (table: map<string, int>)
    ensures cache == null ==> table == map[]
    ensures cache != null ==> table == ParamTable(names, cache.pawnsDict, reg, ext)
  {
    table := map[];
    if cache == null {
      return;
    }
    var i := 0;
    while i < |names|
      invariant i <= |names|
      invariant table == ParamTable(names[..i], cache.pawnsDict, reg, ext)
    {
      assert names[..i + 1][..i] == names[..i];
      var found, count := cache.SearchVariable(names[i], reg, ext);
      if found {
        table := table[names[i] := count];
      }
      i := i + 1;
    }
    assert names[..i] == names;
  }

  // ---------------------------------------------------------------------------
  // Evaluation
  // ---------------------------------------------------------------------------

  /** The runtime type of the evaluator's result. */
  datatype NetType = Int32 | Decimal | Double | Single | OtherType

  /** The result after conversion to a whole number, or a value no integer stands for (NaN, infinity). */
  datatype Number = Finite(value: int) | NonFinite

  datatype EvalOutcome = ArgumentError | Evaluated(netType: NetType, value: Number)

  /** The expression library: its parse check and its evaluation with a parameter table. */
  datatype Evaluator = Evaluator(hasErrors: string -> bool, evaluate: (string, map<string, int>) -> EvalOutcome)

  const Int32Min: int := -0x8000_0000
  const Int32Max: int := 0x7FFF_FFFF
  /** What an overflowing conversion is replaced by. */
  const OverflowValue: int := 999999

  /** The conversion to int, with an OverflowException replaced by OverflowValue. */
  function ToInt32(v: Number): (r: int)
    ensures Int32Min <= r <= Int32Max
  {
    if v.Finite? && Int32Min <= v.value <= Int32Max then v.value else OverflowValue
  }

  lemma ToInt32Clamps(v: Number)
    ensures v.Finite? && Int32Min <= v.value <= Int32Max ==> ToInt32(v) == v.value
    ensures v.NonFinite? || v.value < Int32Min || v.value > Int32Max ==> ToInt32(v) == OverflowValue
  {
  }

  function AcceptedType(t: NetType): bool
  {
    t != OtherType
  }

  /** The pawn dictionary the parameters are resolved against, if the bill has a snapshot. */
  ghost function PawnsOf(cache: CachedMapData?): Option<map<string, Pawn>>
    reads cache
  {
    if cache == null then None else Some(cache.pawnsDict)
  }

  /** The value DoMath stores for an equation, or None when it reports false. */
  ghost function Evaluation(equation: string, pawns: Option<map<string, Pawn>>, vars: map<string, string>,
                            reg: Registry, ext: Externals, ev: Evaluator): (r: Option<int>)
    ensures r.Some? ==> Int32Min <= r.value <= Int32Max
    ensures equation == [] ==> r.None?
  {
    if equation == [] then None
    else
      match Expand(equation, 0, vars)
      case Unregistered => None
      case RecursionLimit => None
      case Expanded(text) =>
        var ps := Params(text, 0);
        var rewritten := Rewrite(text, ps);
        var table := if pawns.None? then map[] else ParamTable(ParamNames(ps), pawns.value, reg, ext);
        if ev.hasErrors(rewritten) then None
        else
          match ev.evaluate(rewritten, table)
          case ArgumentError => None
          case Evaluated(t, v) => if AcceptedType(t) then Some(ToInt32(v)) else None
  }

  /** An equation whose variables cannot be expanded never evaluates. */
  lemma FailedExpansionFails(equation: string, pawns: Option<map<string, Pawn>>, vars: map<string, string>,
                             reg: Registry, ext: Externals, ev: Evaluator)
    requires !Expand(equation, 0, vars).Expanded?
    ensures Evaluation(equation, pawns, vars, reg, ext, ev).None?
  {
  }

  /** A reference to a variable that refers to itself makes the equation fail. */
  lemma SelfReferentialEquationFails(n: string, pawns: Option<map<string, Pawn>>, vars: map<string, string>,
                                     reg: Registry, ext: Externals, ev: Evaluator)
    requires |n| >= 1 && '"' !in n && '\n' !in n
    requires n in vars && vars[n] == ShortRef(n)
    ensures Evaluation(ShortRef(n), pawns, vars, reg, ext, ev).None?
  {
    ShortRefIsFound(n);
    SelfReferenceFails(n, 1, vars);
    ExpandFromUnfolds(ShortRef(n), 0, 0, vars);
  }

  /** An accepted result outside the int range still succeeds, with 999999. */
  lemma OverflowStillSucceeds(equation: string, pawns: Option<map<string, Pawn>>, vars: map<string, string>,
                              reg: Registry, ext: Externals, ev: Evaluator, text: string, t: NetType)
    requires equation != [] && Expand(equation, 0, vars) == Expanded(text)
    requires !ev.hasErrors(Rewrite(text, Params(text, 0)))
    requires t != OtherType
    requires var table := if pawns.None? then map[] else ParamTable(ParamNames(Params(text, 0)), pawns.value, reg, ext);
             ev.evaluate(Rewrite(text, Params(text, 0)), table) == Evaluated(t, NonFinite)
    ensures Evaluation(equation, pawns, vars, reg, ext, ev) == Some(OverflowValue)
  {
  }

  /**
   * Evaluates an equation for a bill: on success the converted value replaces
   * `result`, otherwise `result` is left as it was.
   */
  method DoMath(equation: string, cache: CachedMapData?, vars: map<string, string>, reg: Registry,
                ext: Externals, ev: Evaluator, result: int) returns (ok: bool, newResult: int)
    ensures ok <==> Evaluation(equation, PawnsOf(cache), vars, reg, ext, ev).Some?
    ensures ok ==> newResult == Evaluation(equation, PawnsOf(cache), vars, reg, ext, ev).value
    ensures !ok ==> newResult == result
  {
    newResult := result;
    if equation == [] {
      return false, result;
    }
    var expansion := ParseUserVariables(equation, 0, vars);
    if !expansion.Expanded? {
      return false, result;
    }
    var rewritten, names := ExtractParameters(expansion.text);
    var table := AddParameters(cache, names, reg, ext);
    if ev.hasErrors(rewritten) {
      return false, result;
    }
    match ev.evaluate(rewritten, table) {
      case ArgumentError =>
        return false, result;
      case Evaluated(t, v) =>
        if !AcceptedType(t) {
          return false, result;
        }
        return true, ToInt32(v);
    }
  }

  /** The text field a formula is typed into, with the snapshot of its bill. */
  class InputField {
    var currentValue: int
    var cache: CachedMapData?

    constructor (cache: CachedMapData?)
      ensures this.cache == cache && currentValue == 0
    {
      this.cache := cache;
      currentValue := 0;
    }
  }

  /** The InputField overload: stores the value in the field on success only. */
  method DoMathInField(equation: string, field: InputField, vars: map<string, string>, reg: Registry,
                       ext: Externals, ev: Evaluator) returns (ok: bool)
    modifies field`currentValue
    ensures ok <==> Evaluation(equation, PawnsOf(field.cache), vars, reg, ext, ev).Some?
    ensures ok ==> field.currentValue == Evaluation(equation, PawnsOf(field.cache), vars, reg, ext, ev).value
    ensures !ok ==> field.currentValue == old(field.currentValue)
  {
    var res;
    ok, res := DoMath(equation, field.cache, vars, reg, ext, ev, 0);
    if !ok {
      return false;
    }
    field.currentValue := res;
  }

  // ---------------------------------------------------------------------------
  // Static state: the per-map cache and the log-once set
  // ---------------------------------------------------------------------------

  /** What a bill's Map property gives: a map, null, or a NullReferenceException. */
  datatype BillMap = OnMap(m: Map) | NoMap | MapThrows

  /** The fields that identify a logged problem; null strings are None. */
  datatype ExceptionIdentifier = ExceptionIdentifier(
    context: string, message: string, stackTrace: Option<string>, source: Option<string>, hResult: int)

  /** What an exception offers to identify it. */
  datatype ExceptionInfo = ExceptionInfo(message: string, stackTrace: Option<string>, source: Option<string>, hResult: int)

  function IdentifyException(e: ExceptionInfo, context: string): ExceptionIdentifier
  {
    ExceptionIdentifier(context, e.message, e.stackTrace, e.source, e.hResult)
  }

  function IdentifyMessage(message: string, context: string): ExceptionIdentifier
  {
    ExceptionIdentifier(context, message, Some(""), Some(""), -1)
  }

  /**
   * A logged message and a logged exception count as the same problem exactly
   * when the exception has that message, empty stack trace and source, and
   * HResult -1.
   */
  lemma MessageAndExceptionIdentity(e: ExceptionInfo, message: string, context: string)
    ensures IdentifyException(e, context) == IdentifyMessage(message, context) <==>
      e.message == message && e.stackTrace == Some("") && e.source == Some("") && e.hResult == -1
  {
  }

  class StaticState {
    /** Snapshots by map identity. */
    var cachedMaps: map<nat, CachedMapData>
    var loggedExceptions: set<ExceptionIdentifier>

    constructor ()
      ensures cachedMaps == map[] && loggedExceptions == {}
    {
      cachedMaps := map[];
      loggedExceptions := {};
    }

    method ClearCacheMaps()
      modifies this`cachedMaps
      ensures cachedMaps == map[]
    {
      cachedMaps := map[];
    }

    /**
     * Get-or-create: null for no map, the existing snapshot when there is one,
     * otherwise a new complete snapshot that is stored for later calls. A new
     * snapshot of a destroyed map would throw, which callers must rule out.
     */
    method GetCachedMap(m: Option<Map>) returns (cache: CachedMapData?)
      requires m.Some? && m.value.id !in cachedMaps ==> !m.value.destroyed
      modifies this`cachedMaps
      ensures m.None? ==> cache == null && cachedMaps == old(cachedMaps)
      ensures m.Some? && m.value.id in old(cachedMaps) ==>
        cache == old(cachedMaps)[m.value.id] && cachedMaps == old(cachedMaps)
      ensures m.Some? && m.value.id !in old(cachedMaps) ==>
        cache != null && fresh(cache) && cachedMaps == old(cachedMaps)[m.value.id := cache]
        && cache.gameMap == m.value && cache.Contents() == Index(PlayerPawns(m.value.allPawns))
        && cache.resources == map[] && !cache.updateRequested
    {
      if m.None? {
        return null;
      }
      var id := m.value.id;
      if id !in cachedMaps {
        var ct := new CancellationToken(None);
        var data := new CachedMapData(m.value, ct);
        assert PlayerPawns(m.value.allPawns)[..|PlayerPawns(m.value.allPawns)|] == PlayerPawns(m.value.allPawns);
        cachedMaps := cachedMaps[id := data];
      }
      cache := cachedMaps[id];
    }

    /** The bill overload: null for no bill, and null when reaching the map throws. */
    method GetCachedMapOfBill(bill: Option<BillMap>) returns (cache: CachedMapData?)
      modifies this`cachedMaps
      ensures bill.None? || bill.value.NoMap? || bill.value.MapThrows? ==>
        cache == null && cachedMaps == old(cachedMaps)
      ensures bill.Some? && bill.value.OnMap? && bill.value.m.id in old(cachedMaps) ==>
        cache == old(cachedMaps)[bill.value.m.id] && cachedMaps == old(cachedMaps)
      ensures bill.Some? && bill.value.OnMap? && bill.value.m.id !in old(cachedMaps) && bill.value.m.destroyed ==>
        cache == null && cachedMaps == old(cachedMaps)
      ensures bill.Some? && bill.value.OnMap? && bill.value.m.id !in old(cachedMaps) && !bill.value.m.destroyed ==>
        cache != null && fresh(cache) && cachedMaps == old(cachedMaps)[bill.value.m.id := cache]
    {
      if bill.None? {
        return null;
      }
      match bill.value {
        case MapThrows =>
          return null;
        case NoMap =>
          cache := GetCachedMap(None);
        case OnMap(m) =>
          if m.id !in cachedMaps && m.destroyed {
            // building the snapshot throws NullReferenceException, which is caught here
            return null;
          }
          cache := GetCachedMap(Some(m));
      }
    }

    /** Logs an exception once per identifier; `logged` says whether it was new. */
    method TryLogException(e: ExceptionInfo, context: string) returns (logged: bool)
      modifies this`loggedExceptions
      ensures logged <==> IdentifyException(e, context) !in old(loggedExceptions)
      ensures loggedExceptions == old(loggedExceptions) + {IdentifyException(e, context)}
    {
      var id := IdentifyException(e, context);
      logged := id !in loggedExceptions;
      loggedExceptions := loggedExceptions + {id};
    }

    /** Logs an error message once per identifier; `logged` says whether it was new. */
    method TryLogErrorMessage(message: string, context: string) returns (logged: bool)
      modifies this`loggedExceptions
      ensures logged <==> IdentifyMessage(message, context) !in old(loggedExceptions)
      ensures loggedExceptions == old(loggedExceptions) + {IdentifyMessage(message, context)}
    {
      var id := IdentifyMessage(message, context);
      logged := id !in loggedExceptions;
      loggedExceptions := loggedExceptions + {id};
    }
  }
}
