/**
 * String helpers shared by the formula front end and the pawn filter.
 *
 * The source uses .NET regular expressions; they are replaced here by small
 * scanners that reproduce the leftmost-match behaviour of the patterns used
 * (alternations of literals, a lazy quoted part, a run of digits or of
 * letters and digits).
 */
module Text {
  import opened Wrappers

  // ---------------------------------------------------------------------------
  // Splitting on a separator (String.Split(char))
  // ---------------------------------------------------------------------------

  /** The pieces of `s` between occurrences of `sep`; empty pieces are kept. */
  function Split(s: string, sep: char): (parts: seq<string>)
    decreases |s|
    ensures |parts| >= 1
    ensures forall i :: 0 <= i < |parts| ==> sep !in parts[i]
  {
    if s == [] then [""]
    else if s[0] == sep then [""] + Split(s[1..], sep)
    else
      var rest := Split(s[1..], sep);
      [[s[0]] + rest[0]] + rest[1..]
  }

  /** The inverse of Split: the pieces glued back with the separator. */
  function Join(parts: seq<string>, sep: char): string
    requires |parts| >= 1
  {
    if |parts| == 1 then parts[0] else parts[0] + [sep] + Join(parts[1..], sep)
  }

  /** Splitting loses nothing: the pieces rebuild the original text. */
  lemma {:induction false} JoinSplit(s: string, sep: char)
    ensures Join(Split(s, sep), sep) == s
  {
    if s == [] {
    } else if s[0] == sep {
      var rest := Split(s[1..], sep);
      JoinSplit(s[1..], sep);
      assert Split(s, sep) == [""] + rest;
      assert ([""] + rest)[1..] == rest;
    } else {
      var rest := Split(s[1..], sep);
      JoinSplit(s[1..], sep);
      var parts := Split(s, sep);
      assert parts == [[s[0]] + rest[0]] + rest[1..];
      if |rest| == 1 {
        assert Join(parts, sep) == [s[0]] + rest[0];
      } else {
        assert parts[1..] == rest[1..];
        assert Join(rest, sep) == rest[0] + [sep] + Join(rest[1..], sep);
      }
    }
  }

  /** Text without the separator is one piece. */
  lemma {:induction false} SplitWithoutSeparator(a: string, sep: char)
    requires sep !in a
    ensures Split(a, sep) == [a]
    decreases |a|
  {
    if a != [] {
      SplitWithoutSeparator(a[1..], sep);
      assert [a[0]] + a[1..] == a;
    }
  }

  /** The first piece ends at the first separator; the rest is split on its own. */
  lemma {:induction false} SplitAtFirst(a: string, sep: char, b: string)
    requires sep !in a
    ensures Split(a + [sep] + b, sep) == [a] + Split(b, sep)
    decreases |a|
  {
    var s := a + [sep] + b;
    if a == [] {
      assert s == [sep] + b;
      assert s[1..] == b;
    } else {
      assert s[1..] == a[1..] + [sep] + b;
      SplitAtFirst(a[1..], sep, b);
      assert [a[0]] + a[1..] == a;
    }
  }

  /** Split undoes Join when no piece holds the separator. */
  lemma {:induction false} SplitJoin(parts: seq<string>, sep: char)
    requires |parts| >= 1 && forall i :: 0 <= i < |parts| ==> sep !in parts[i]
    ensures Split(Join(parts, sep), sep) == parts
    decreases |parts|
  {
    if |parts| == 1 {
      SplitWithoutSeparator(parts[0], sep);
    } else {
      SplitJoin(parts[1..], sep);
      SplitAtFirst(parts[0], sep, Join(parts[1..], sep));
      assert [parts[0]] + parts[1..] == parts;
    }
  }

  // ---------------------------------------------------------------------------
  // Removing a word (String.Replace(w, ""))
  // ---------------------------------------------------------------------------

  /** Every occurrence of `w`, found from left to right without overlap, removed. */
  function RemoveAll(s: string, w: string): (r: string)
    requires |w| >= 1
    decreases |s|
    ensures |r| <= |s|
  {
    if |s| < |w| then s
    else if s[..|w|] == w then RemoveAll(s[|w|..], w)
    else [s[0]] + RemoveAll(s[1..], w)
  }

  predicate EndsWith(s: string, v: string)
  {
    |v| <= |s| && s[|s| - |v|..] == v
  }

  /** A word that ends in the separator never occurs in text without it. */
  lemma {:induction false} RemoveAllNoSeparator(s: string, v: string, sep: char)
    requires sep !in s
    ensures RemoveAll(s, v + [sep]) == s
    decreases |s|
  {
    var w := v + [sep];
    if |s| >= |w| {
      assert s[..|w|] != w by {
        assert w[|w| - 1] == sep;
        assert s[|w| - 1] in s;
      }
      RemoveAllNoSeparator(s[1..], v, sep);
      assert [s[0]] + s[1..] == s;
    }
  }

  /** A match of `v` and the separator at the start of a piece and the separator is the whole of it. */
  lemma MatchIsWholePiece(l: string, v: string, sep: char)
    requires sep !in l
    requires |v| + 1 <= |l| + 1 && (l + [sep])[..|v| + 1] == v + [sep]
    ensures l == v
  {
    var s, w := l + [sep], v + [sep];
    assert forall k :: 0 <= k < |l| ==> s[k] == l[k] && l[k] in l;
    assert s[|w| - 1] == w[|w| - 1] == sep;
    assert l == s[..|w|][..|l|];
  }

  /** Dropping the first character of a piece other than `v` keeps whether it ends in `v`. */
  lemma EndsWithTail(l: string, v: string)
    requires l != [] && l != v
    ensures EndsWith(l, v) <==> EndsWith(l[1..], v)
    ensures EndsWith(l, v) ==> [l[0]] + l[1..][..|l| - 1 - |v|] == l[..|l| - |v|]
  {
    if |v| <= |l| - 1 {
      assert l[1..][|l| - 1 - |v|..] == l[|l| - |v|..];
      assert [l[0]] + l[1..][..|l| - 1 - |v|] == l[..|l| - |v|];
    }
  }

  /**
   * Removing `v` followed by the separator from one piece followed by the
   * separator: the piece loses its tail `v` and the separator when it ends
   * in `v`, and is left alone otherwise.
   */
  lemma {:induction false} RemoveAllPiece(l: string, v: string, sep: char)
    requires sep !in l && sep !in v
    ensures RemoveAll(l + [sep], v + [sep]) == if EndsWith(l, v) then l[..|l| - |v|] else l + [sep]
    decreases |l|
  {
    var s, w := l + [sep], v + [sep];
    if |s| >= |w| && s[..|w|] == w {
      MatchIsWholePiece(l, v, sep);
      assert s[|w|..] == [];
    } else if |s| >= |w| {
      assert l != v && l != [];
      assert s[1..] == l[1..] + [sep];
      RemoveAllPiece(l[1..], v, sep);
      EndsWithTail(l, v);
      assert [l[0]] + (l[1..] + [sep]) == s;
    }
  }

  /** A match at the start of `x + y`, where `x` ends in the separator, lies within `x`. */
  lemma MatchWithinFirst(x: string, y: string, v: string, sep: char)
    requires sep !in v
    requires x != [] && x[|x| - 1] == sep
    requires |v| + 1 <= |x + y| && (x + y)[..|v| + 1] == v + [sep]
    ensures |v| + 1 <= |x| && x[..|v| + 1] == v + [sep]
    ensures (x + y)[|v| + 1..] == x[|v| + 1..] + y
  {
    var w := v + [sep];
    assert (x + y)[|x| - 1] == sep;
    assert forall k :: 0 <= k < |v| ==> w[k] == v[k] && v[k] in v;
    assert x[..|w|] == (x + y)[..|w|];
  }

  /** Occurrences of a word ending in the separator never straddle a separator. */
  lemma {:induction false} RemoveAllConcat(x: string, y: string, v: string, sep: char)
    requires sep !in v
    requires x == [] || x[|x| - 1] == sep
    ensures RemoveAll(x + y, v + [sep]) == RemoveAll(x, v + [sep]) + RemoveAll(y, v + [sep])
    decreases |x|, 1
  {
    var w := v + [sep];
    if x == [] {
      assert x + y == y;
    } else if |x + y| < |w| {
    } else if (x + y)[..|w|] == w {
      RemoveAllConcatAtMatch(x, y, v, sep);
    } else {
      RemoveAllConcatAtMiss(x, y, v, sep);
    }
  }

  /** RemoveAllConcat when the word starts the text. */
  lemma {:induction false} RemoveAllConcatAtMatch(x: string, y: string, v: string, sep: char)
    requires sep !in v
    requires x != [] && x[|x| - 1] == sep
    requires |v| + 1 <= |x + y| && (x + y)[..|v| + 1] == v + [sep]
    ensures RemoveAll(x + y, v + [sep]) == RemoveAll(x, v + [sep]) + RemoveAll(y, v + [sep])
    decreases |x|, 0
  {
    var w := v + [sep];
    MatchWithinFirst(x, y, v, sep);
    RemoveAllConcat(x[|w|..], y, v, sep);
  }

  /** RemoveAllConcat when the word does not start the text. */
  lemma {:induction false} RemoveAllConcatAtMiss(x: string, y: string, v: string, sep: char)
    requires sep !in v
    requires x != [] && x[|x| - 1] == sep
    requires |v| + 1 <= |x + y| && (x + y)[..|v| + 1] != v + [sep]
    ensures RemoveAll(x + y, v + [sep]) == RemoveAll(x, v + [sep]) + RemoveAll(y, v + [sep])
    decreases |x|, 0
  {
    var w := v + [sep];
    assert (x + y)[1..] == x[1..] + y;
    RemoveAllConcat(x[1..], y, v, sep);
    if |x| >= |w| {
      assert x[..|w|] == (x + y)[..|w|];
    } else {
      assert [x[0]] + x[1..] == x;
    }
  }

  /** A word that ends no piece but perhaps the last is not found in the joined text. */
  lemma {:induction false} RemoveAllJoinKeeps(parts: seq<string>, v: string, sep: char)
    requires |parts| >= 1 && forall i :: 0 <= i < |parts| ==> sep !in parts[i]
    requires sep !in v
    requires forall j :: 0 <= j < |parts| - 1 ==> !EndsWith(parts[j], v)
    ensures RemoveAll(Join(parts, sep), v + [sep]) == Join(parts, sep)
    decreases |parts|
  {
    if |parts| == 1 {
      RemoveAllNoSeparator(parts[0], v, sep);
    } else {
      RemoveAllConcat(parts[0] + [sep], Join(parts[1..], sep), v, sep);
      RemoveAllPiece(parts[0], v, sep);
      RemoveAllJoinKeeps(parts[1..], v, sep);
    }
  }

  /**
   * A word equal to piece i, which is not the last, and ending no other piece
   * but perhaps the last: removing it followed by the separator drops exactly
   * piece i.
   */
  lemma {:induction false} RemoveAllJoinDrops(parts: seq<string>, i: nat, sep: char)
    requires i < |parts| - 1 && forall k :: 0 <= k < |parts| ==> sep !in parts[k]
    requires forall j :: 0 <= j < |parts| - 1 && j != i ==> !EndsWith(parts[j], parts[i])
    ensures RemoveAll(Join(parts, sep), parts[i] + [sep]) == Join(parts[..i] + parts[i + 1..], sep)
    decreases i
  {
    var v, rest := parts[i], parts[1..];
    RemoveAllConcat(parts[0] + [sep], Join(rest, sep), v, sep);
    RemoveAllPiece(parts[0], v, sep);
    if i == 0 {
      assert EndsWith(v, v);
      RemoveAllJoinKeeps(rest, v, sep);
      assert parts[..0] + parts[1..] == rest;
    } else {
      assert rest[i - 1] == v;
      RemoveAllJoinDrops(rest, i - 1, sep);
      var t := rest[..i - 1] + rest[i..];
      assert parts[..i] + parts[i + 1..] == [parts[0]] + t;
      assert ([parts[0]] + t)[1..] == t;
    }
  }

  // ---------------------------------------------------------------------------
  // Characters
  // ---------------------------------------------------------------------------

  predicate IsDigit(c: char) { '0' <= c <= '9' }

  /** The class [a-zA-Z0-9]. */
  predicate IsAlnum(c: char) { IsDigit(c) || 'a' <= c <= 'z' || 'A' <= c <= 'Z' }

  function LowerChar(c: char): char
  {
    if 'A' <= c <= 'Z' then (c as int + 32) as char else c
  }

  /** ASCII lower-casing (String.ToLower restricted to ASCII letters). */
  function Lower(s: string): (r: string)
    ensures |r| == |s|
    ensures forall i :: 0 <= i < |s| ==> r[i] == LowerChar(s[i])
  {
    seq(|s|, i requires 0 <= i < |s| => LowerChar(s[i]))
  }

  function LowerAll(ss: seq<string>): (r: seq<string>)
    ensures |r| == |ss|
    ensures forall i :: 0 <= i < |ss| ==> r[i] == Lower(ss[i])
  {
    seq(|ss|, i requires 0 <= i < |ss| => Lower(ss[i]))
  }

  // ---------------------------------------------------------------------------
  // Leftmost match of an alternation of literals: (a1|a2|...|an)
  // ---------------------------------------------------------------------------

  predicate OccursAt(a: string, s: string, p: nat)
  {
    p + |a| <= |s| && s[p..p + |a|] == a
  }

  /** Some alternative occurs somewhere in `s`. */
  predicate AnyOccurs(s: string, alts: seq<string>)
  {
    exists p, j :: 0 <= p <= |s| && 0 <= j < |alts| && OccursAt(alts[j], s, p)
  }

  /**
   * What a regex engine matches for an alternation of literals: alternative
   * `j` at `p`, no alternative anywhere before `p`, and no earlier-listed
   * alternative at `p`.
   */
  predicate LeftmostAt(s: string, alts: seq<string>, p: nat, j: nat)
  {
    j < |alts| && OccursAt(alts[j], s, p)
    && (forall q, k :: 0 <= q < p && 0 <= k < |alts| ==> !OccursAt(alts[k], s, q))
    && (forall k :: 0 <= k < j ==> !OccursAt(alts[k], s, p))
  }

  /** The leftmost match is unique: its position and its alternative are determined. */
  lemma LeftmostUnique(s: string, alts: seq<string>, p1: nat, j1: nat, p2: nat, j2: nat)
    requires LeftmostAt(s, alts, p1, j1) && LeftmostAt(s, alts, p2, j2)
    ensures p1 == p2 && j1 == j2
  {
  }

  /** A match of alternative number `alt` at position `pos`. */
  datatype Hit = Hit(pos: nat, alt: nat)

  /** The first alternative, from number `k` on, that occurs at `p`. */
  function FirstAltAt(s: string, p: nat, alts: seq<string>, k: nat): (r: Option<nat>)
    requires k <= |alts|
    decreases |alts| - k
    ensures r.Some? ==> k <= r.value < |alts| && OccursAt(alts[r.value], s, p)
    ensures r.Some? ==> forall j :: k <= j < r.value ==> !OccursAt(alts[j], s, p)
    ensures r.None? ==> forall j :: k <= j < |alts| ==> !OccursAt(alts[j], s, p)
  {
    if k == |alts| then None
    else if OccursAt(alts[k], s, p) then Some(k)
    else FirstAltAt(s, p, alts, k + 1)
  }

  /**
   * The regex engine's answer for an alternation of literals scanned from
   * `from`: the leftmost position where some alternative occurs, and there
   * the first alternative in the listed order.
   */
  function FindFirstOf(s: string, alts: seq<string>, from: nat): (r: Option<Hit>)
    requires from <= |s|
    decreases |s| - from
    ensures r.Some? ==> from <= r.value.pos <= |s| && r.value.alt < |alts|
    ensures r.Some? ==> OccursAt(alts[r.value.alt], s, r.value.pos)
    ensures r.Some? ==> forall j :: 0 <= j < r.value.alt ==> !OccursAt(alts[j], s, r.value.pos)
    ensures r.Some? ==> forall p, j :: from <= p < r.value.pos && 0 <= j < |alts| ==> !OccursAt(alts[j], s, p)
    ensures r.None? ==> forall p, j :: from <= p <= |s| && 0 <= j < |alts| ==> !OccursAt(alts[j], s, p)
  {
    match FirstAltAt(s, from, alts, 0)
    case Some(k) => Some(Hit(from, k))
    case None => if from == |s| then None else FindFirstOf(s, alts, from + 1)
  }

  /**
   * Case-insensitive variant, as `(?i)(a1|...|an)`: matching is done on the
   * lower-cased text, and the matched text is the original substring.
   */
  function FindFirstOfIgnoringCase(s: string, alts: seq<string>): (r: Option<Hit>)
    ensures r.Some? ==> r.value.alt < |alts| && r.value.pos + |alts[r.value.alt]| <= |s|
    ensures r.Some? ==> Lower(s[r.value.pos..r.value.pos + |alts[r.value.alt]|]) == Lower(alts[r.value.alt])
    ensures r.Some? ==> forall j :: 0 <= j < r.value.alt ==> !OccursAt(Lower(alts[j]), Lower(s), r.value.pos)
    ensures r.Some? ==> forall p, j :: 0 <= p < r.value.pos && 0 <= j < |alts| ==> !OccursAt(Lower(alts[j]), Lower(s), p)
    ensures r.None? ==> forall p, j :: 0 <= p <= |s| && 0 <= j < |alts| ==> !OccursAt(Lower(alts[j]), Lower(s), p)
  {
    var low := LowerAll(alts);
    var r := FindFirstOf(Lower(s), low, 0);
    if r.Some? then
      var a := alts[r.value.alt];
      var p := r.value.pos;
      assert Lower(s)[p..p + |a|] == Lower(a);
      assert Lower(s[p..p + |a|]) == Lower(s)[p..p + |a|];
      assert forall j :: 0 <= j < r.value.alt ==> !OccursAt(low[j], Lower(s), p);
      r
    else
      assert forall p, j :: 0 <= p <= |s| && 0 <= j < |alts| ==> !OccursAt(low[j], Lower(s), p);
      r
  }

  // ---------------------------------------------------------------------------
  // Digits: the pattern [0-9]+
  // ---------------------------------------------------------------------------

  /** The value of a string of decimal digits (int.Parse without the 32-bit limit). */
  function DigitsValue(s: string): nat
  {
    if s == [] then 0 else DigitsValue(s[..|s| - 1]) * 10 + (s[|s| - 1] as int - '0' as int) % 10
  }

  /** The end of the run of digits that starts at `p`. */
  function DigitRunEnd(s: string, p: nat): (e: nat)
    requires p <= |s|
    decreases |s| - p
    ensures p <= e <= |s|
    ensures forall i :: p <= i < e ==> IsDigit(s[i])
    ensures e == |s| || !IsDigit(s[e])
  {
    if p < |s| && IsDigit(s[p]) then DigitRunEnd(s, p + 1) else p
  }

  /** The leftmost, longest run of digits at or after `from`. */
  function FirstDigitRun(s: string, from: nat): (r: Option<string>)
    requires from <= |s|
    decreases |s| - from
    ensures r.Some? ==> |r.value| >= 1 && forall i :: 0 <= i < |r.value| ==> IsDigit(r.value[i])
    ensures r.Some? ==> exists k :: from <= k < |s| && IsDigit(s[k]) && (forall i :: from <= i < k ==> !IsDigit(s[i]))
                                    && r.value == s[k..DigitRunEnd(s, k)]
    ensures r.None? ==> forall i :: from <= i < |s| ==> !IsDigit(s[i])
  {
    if from == |s| then None
    else if IsDigit(s[from]) then Some(s[from..DigitRunEnd(s, from)])
    else FirstDigitRun(s, from + 1)
  }

  /** The end of the run of ASCII letters and digits that starts at `p`. */
  function AlnumRunEnd(s: string, p: nat): (e: nat)
    requires p <= |s|
    decreases |s| - p
    ensures p <= e <= |s|
    ensures forall i :: p <= i < e ==> IsAlnum(s[i])
    ensures e == |s| || !IsAlnum(s[e])
  {
    if p < |s| && IsAlnum(s[p]) then AlnumRunEnd(s, p + 1) else p
  }

  // ---------------------------------------------------------------------------
  // A closing quote for a lazy `.+?"`: the first '"' before any newline
  // ---------------------------------------------------------------------------

  /** The first index at or after `j` holding '"', provided no '\n' comes first. */
  function CloseQuote(s: string, j: nat): (r: Option<nat>)
    decreases |s| - j
    ensures r.Some? ==> j <= r.value < |s| && s[r.value] == '"'
    ensures r.Some? ==> forall i :: j <= i < r.value ==> s[i] != '"' && s[i] != '\n'
  {
    if j >= |s| then None
    else if s[j] == '"' then Some(j)
    else if s[j] == '\n' then None
    else CloseQuote(s, j + 1)
  }

  /** CloseQuote skips over any stretch free of quotes and newlines. */
  lemma {:induction false} CloseQuoteFinds(s: string, j: nat, k: nat)
    requires j <= k < |s| && s[k] == '"'
    requires forall i :: j <= i < k ==> s[i] != '"' && s[i] != '\n'
    ensures CloseQuote(s, j) == Some(k)
    decreases k - j
  {
    if j < k {
      CloseQuoteFinds(s, j + 1, k);
    }
  }
}
