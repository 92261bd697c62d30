/**
 * The parts of Python's string, regular-expression and number built-ins that the
 * pipeline relies on: whitespace (`str.isspace`, which is also what `\s` matches and
 * what `strip()` removes), `str.lower` on ASCII letters, substring `in`, `str.join`,
 * `str.split`, `str.strip`, `re.sub(r"\s+", " ", ...)`, code-point ordering of strings
 * (what `sorted` uses), `float()` and `round()`.
 */
module Builtins {
  import opened Wrappers

  // ---------------------------------------------------------------------------
  // Characters
  // ---------------------------------------------------------------------------

  /** `c.isspace()`: the code points Python treats as whitespace. */
  predicate IsSpace(c: char) {
    ('\t' <= c <= '\r') || ('\U{1C}' <= c <= '\U{1F}') || c == ' ' || c == '\U{85}' || c == '\U{A0}'
    || c == '\U{1680}' || ('\U{2000}' <= c <= '\U{200A}') || c == '\U{2028}' || c == '\U{2029}'
    || c == '\U{202F}' || c == '\U{205F}' || c == '\U{3000}'
  }

  /** `[0-9]` in a regular expression. */
  predicate IsDigit(c: char) {
    '0' <= c <= '9'
  }

  function DigitValue(c: char): nat {
    if IsDigit(c) then c as int - '0' as int else 0
  }

  function LowerChar(c: char): char {
    if 'A' <= c <= 'Z' then (c as int + 32) as char else c
  }

  predicate NoSpace(s: string) {
    forall i :: 0 <= i < |s| ==> !IsSpace(s[i])
  }

  predicate AllSpace(s: string) {
    forall i :: 0 <= i < |s| ==> IsSpace(s[i])
  }

  predicate AllDigits(s: string) {
    forall i :: 0 <= i < |s| ==> IsDigit(s[i])
  }

  predicate HasDigit(s: string) {
    exists i :: 0 <= i < |s| && IsDigit(s[i])
  }

  // ---------------------------------------------------------------------------
  // Lower case
  // ---------------------------------------------------------------------------

  /** `s.lower()`, restricted to the ASCII letters. */
  function Lower(s: string): (r: string)
    ensures |r| == |s|
    ensures forall i :: 0 <= i < |s| ==> r[i] == LowerChar(s[i])
  {
    seq(|s|, i requires 0 <= i < |s| => LowerChar(s[i]))
  }

  /** No ASCII upper-case letter in `s`. */
  predicate IsLower(s: string) {
    forall i :: 0 <= i < |s| ==> !('A' <= s[i] <= 'Z')
  }

  lemma {:induction false} LowerConcat(a: string, b: string)
    ensures Lower(a + b) == Lower(a) + Lower(b)
  {
    assert Lower(a + b) == Lower(a) + Lower(b) by {
      forall i | 0 <= i < |a + b|
        ensures Lower(a + b)[i] == (Lower(a) + Lower(b))[i]
      {
        if i < |a| {
        } else {
          assert (a + b)[i] == b[i - |a|];
        }
      }
    }
  }

  lemma {:induction false} LowerOfLower(s: string)
    ensures IsLower(Lower(s))
    ensures Lower(Lower(s)) == Lower(s)
  {
  }

  lemma {:induction false} LowerIdentity(s: string)
    requires IsLower(s)
    ensures Lower(s) == s
  {
  }

  /** Lower-casing neither adds nor removes a character that is not a letter. */
  lemma {:induction false} LowerKeepsOther(s: string, c: char)
    requires !('a' <= c <= 'z') && !('A' <= c <= 'Z')
    ensures c in Lower(s) <==> c in s
  {
    if c in Lower(s) {
      var i :| 0 <= i < |s| && Lower(s)[i] == c;
      assert s[i] == c;
    }
    if c in s {
      var i :| 0 <= i < |s| && s[i] == c;
      assert Lower(s)[i] == c;
    }
  }

  lemma {:induction false} LowerKeepsSpace(s: string)
    ensures forall i :: 0 <= i < |s| ==> (IsSpace(Lower(s)[i]) <==> IsSpace(s[i]))
  {
  }

  // ---------------------------------------------------------------------------
  // Substrings, join, split
  // ---------------------------------------------------------------------------

  /** `t` occurs in `s` starting at index `i`. */
  predicate OccursAt(s: string, t: string, i: nat) {
    i + |t| <= |s| && s[i..i + |t|] == t
  }

  lemma {:induction false} OccursAtIndex(s: string, t: string, i: nat, k: nat)
    requires OccursAt(s, t, i) && k < |t|
    ensures t[k] == s[i + k]
  {
    assert t[k] == s[i..i + |t|][k];
  }

  lemma {:induction false} OccursInFront(x: string, y: string, t: string, i: nat)
    requires i + |t| <= |x|
    ensures OccursAt(x + y, t, i) <==> OccursAt(x, t, i)
  {
    assert (x + y)[i..i + |t|] == x[i..i + |t|];
  }

  lemma {:induction false} OccursBehind(x: string, y: string, t: string, i: nat)
    ensures OccursAt(x + y, t, |x| + i) <==> OccursAt(y, t, i)
  {
    if i + |t| <= |y| {
      assert (x + y)[|x| + i..|x| + i + |t|] == y[i..i + |t|];
    }
  }

  /** `t in s` for strings. */
  predicate Contains(s: string, t: string) {
    exists i :: 0 <= i <= |s| - |t| && OccursAt(s, t, i)
  }

  /** `s.endswith(t)`. */
  predicate EndsWith(s: string, t: string) {
    |t| <= |s| && s[|s| - |t|..] == t
  }

  /**
   * A segment that does not contain `c` cannot straddle a `c` put between two strings:
   * `t in a + c + b` exactly when `t in a` or `t in b`.
   */
  lemma {:induction false} ContainsAcross(a: string, c: char, b: string, t: string)
    requires c !in t
    ensures Contains(a + [c] + b, t) <==> Contains(a, t) || Contains(b, t)
  {
    var s := a + [c] + b;
    if Contains(s, t) {
      var i :| 0 <= i <= |s| - |t| && OccursAt(s, t, i);
      if i + |t| <= |a| {
        OccursInFront(a, [c] + b, t, i);
        assert OccursAt(a, t, i);
      } else if i > |a| {
        OccursBehind(a + [c], b, t, i - |a| - 1);
        assert OccursAt(b, t, i - |a| - 1);
      } else {
        OccursAtIndex(s, t, i, |a| - i);
        assert false;
      }
    }
    if Contains(a, t) {
      var i :| 0 <= i <= |a| - |t| && OccursAt(a, t, i);
      OccursInFront(a, [c] + b, t, i);
      assert OccursAt(s, t, i);
    }
    if Contains(b, t) {
      var i :| 0 <= i <= |b| - |t| && OccursAt(b, t, i);
      OccursBehind(a + [c], b, t, i);
      assert OccursAt(s, t, |a| + 1 + i);
    }
  }

  lemma {:induction false} ContainsLower(s: string, t: string)
    requires Contains(s, t)
    ensures Contains(Lower(s), Lower(t))
  {
    var i :| 0 <= i <= |s| - |t| && OccursAt(s, t, i);
    assert Lower(s)[i..i + |t|] == Lower(t);
    assert OccursAt(Lower(s), Lower(t), i);
  }

  /** `sep.join(parts)`. */
  function JoinWith(parts: seq<string>, sep: string): (r: string)
    ensures parts == [] ==> r == ""
    ensures parts != [] ==> parts[0] <= r
  {
    if |parts| == 0 then ""
    else if |parts| == 1 then parts[0]
    else parts[0] + sep + JoinWith(parts[1..], sep)
  }

  /** Index of the first `c` in `s`, or `|s|` when there is none. */
  function IndexOf(s: string, c: char): (i: nat)
    ensures i <= |s|
    ensures i < |s| ==> s[i] == c
    ensures forall j :: 0 <= j < i ==> s[j] != c
  {
    if s == [] || s[0] == c then 0 else 1 + IndexOf(s[1..], c)
  }

  /** `s.split(c)` for a one-character separator. */
  function Split(s: string, c: char): (r: seq<string>)
    ensures |r| >= 1
    ensures (|r| >= 2) <==> c in s
    ensures forall k :: 0 <= k < |r| ==> c !in r[k]
    ensures JoinWith(r, [c]) == s
    decreases |s|
  {
    var i := IndexOf(s, c);
    if i == |s| then [s]
    else
      var rest := Split(s[i + 1..], c);
      var r := [s[..i]] + rest;
      assert r[1..] == rest;
      assert s == s[..i] + [c] + s[i + 1..];
      r
  }

  /** The first piece of `s.split(c)` runs up to the first `c`. */
  lemma {:induction false} SplitHead(s: string, c: char)
    ensures Split(s, c)[0] == s[..IndexOf(s, c)]
  {
  }

  /** `s.rfind(c)`: the index of the last `c` in `s`, or -1. */
  function LastIndexOf(s: string, c: char): (i: int)
    ensures -1 <= i < |s|
    ensures i >= 0 ==> s[i] == c
    ensures forall j :: i < j < |s| ==> s[j] != c
  {
    if s == [] then -1
    else if s[|s| - 1] == c then |s| - 1
    else LastIndexOf(s[..|s| - 1], c)
  }

  /** The last `c` of `s` is at `i` when `s[i]` is `c` and nothing after it is (`i == -1`: no `c` at all). */
  lemma {:induction false} LastIndexOfIs(s: string, c: char, i: int)
    requires -1 <= i < |s|
    requires i >= 0 ==> s[i] == c
    requires forall j :: i < j < |s| ==> s[j] != c
    ensures LastIndexOf(s, c) == i
    decreases |s|
  {
    if s != [] && i < |s| - 1 {
      LastIndexOfIs(s[..|s| - 1], c, i);
    }
  }

  /** A substring can only occur where each of its characters does. */
  lemma {:induction false} ContainsChar(s: string, t: string, c: char)
    requires Contains(s, t) && c in t
    ensures c in s
  {
    var i :| 0 <= i <= |s| - |t| && OccursAt(s, t, i);
    var k :| 0 <= k < |t| && t[k] == c;
    OccursAtIndex(s, t, i, k);
  }

  /** `s.lstrip(c)` for a one-character argument. */
  function LStripChar(s: string, c: char): (r: string)
    ensures |r| <= |s| && r == s[|s| - |r|..]
    ensures r == [] || r[0] != c
    ensures forall j :: 0 <= j < |s| - |r| ==> s[j] == c
  {
    if s != [] && s[0] == c then LStripChar(s[1..], c) else s
  }

  // ---------------------------------------------------------------------------
  // Strip, collapse, tokens
  // ---------------------------------------------------------------------------

  lemma {:induction false} LowerCharSpace(c: char)
    ensures IsSpace(LowerChar(c)) == IsSpace(c)
  {
  }

  /** The end of the run of whitespace that starts at `i`. */
  function SpaceEnd(s: string, i: nat): (k: nat)
    requires i <= |s|
    ensures i <= k <= |s|
    ensures forall j :: i <= j < k ==> IsSpace(s[j])
    ensures k < |s| ==> !IsSpace(s[k])
    decreases |s| - i
  {
    if i < |s| && IsSpace(s[i]) then SpaceEnd(s, i + 1) else i
  }

  /** The start of the run of whitespace that ends at `j`. */
  function SpaceStart(s: string, j: nat): (k: nat)
    requires j <= |s|
    ensures k <= j
    ensures forall i :: k <= i < j ==> IsSpace(s[i])
    ensures k > 0 ==> !IsSpace(s[k - 1])
  {
    if j > 0 && IsSpace(s[j - 1]) then SpaceStart(s, j - 1) else j
  }

  /** The end of the run of non-whitespace that starts at `i`. */
  function WordEnd(s: string, i: nat): (k: nat)
    requires i <= |s|
    ensures i <= k <= |s|
    ensures forall j :: i <= j < k ==> !IsSpace(s[j])
    ensures k < |s| ==> IsSpace(s[k])
    decreases |s| - i
  {
    if i < |s| && !IsSpace(s[i]) then WordEnd(s, i + 1) else i
  }

  lemma {:induction false} SpaceEndIs(s: string, i: nat, k: nat)
    requires i <= k <= |s|
    requires forall j :: i <= j < k ==> IsSpace(s[j])
    requires k < |s| ==> !IsSpace(s[k])
    ensures SpaceEnd(s, i) == k
  {
    var m := SpaceEnd(s, i);
    assert m < |s| ==> !IsSpace(s[m]);
    assert k < |s| ==> !IsSpace(s[k]);
  }

  lemma {:induction false} SpaceStartIs(s: string, j: nat, k: nat)
    requires k <= j <= |s|
    requires forall i :: k <= i < j ==> IsSpace(s[i])
    requires k > 0 ==> !IsSpace(s[k - 1])
    ensures SpaceStart(s, j) == k
  {
    var m := SpaceStart(s, j);
    assert m > 0 ==> !IsSpace(s[m - 1]);
    assert k > 0 ==> !IsSpace(s[k - 1]);
  }

  lemma {:induction false} WordEndIs(s: string, i: nat, k: nat)
    requires i <= k <= |s|
    requires forall j :: i <= j < k ==> !IsSpace(s[j])
    requires k < |s| ==> IsSpace(s[k])
    ensures WordEnd(s, i) == k
  {
    var m := WordEnd(s, i);
    assert m < |s| ==> IsSpace(s[m]);
    assert k < |s| ==> IsSpace(s[k]);
  }

  /** `s.lstrip()`. */
  function StripStart(s: string): string {
    s[SpaceEnd(s, 0)..]
  }

  /** `s.rstrip()`. */
  function StripEnd(s: string): string {
    s[..SpaceStart(s, |s|)]
  }

  /** `s.strip()`: no whitespace left at either end, and text without any at its ends is kept. */
  function Strip(s: string): (r: string)
    ensures |r| <= |s|
    ensures r == [] || (!IsSpace(r[0]) && !IsSpace(r[|r| - 1]))
    ensures s == [] || (!IsSpace(s[0]) && !IsSpace(s[|s| - 1])) ==> r == s
  {
    StripKeeps(s);
    var x := StripStart(s);
    assert x == [] || !IsSpace(x[0]);
    StripEnd(x)
  }

  /** Text with no whitespace at either end is its own `strip()`. */
  lemma {:induction false} StripKeeps(s: string)
    ensures s == [] || (!IsSpace(s[0]) && !IsSpace(s[|s| - 1])) ==> StripEnd(StripStart(s)) == s
  {
    if s == [] || (!IsSpace(s[0]) && !IsSpace(s[|s| - 1])) {
      StripStartNoLead(s);
      StripEndNoTrail(s);
    }
  }

  /** `strip()` leaves no whitespace at either end. */
  lemma {:induction false} StripShape(s: string)
    ensures var t := Strip(s); t == [] || (!IsSpace(t[0]) && !IsSpace(t[|t| - 1]))
  {
    var x := StripStart(s);
    var m := SpaceStart(x, |x|);
    assert x == [] || !IsSpace(x[0]);
    assert Strip(s) == x[..m];
  }

  /** `re.sub(r"\s+", " ", s)`: every maximal run of whitespace becomes one space. */
  function Collapse(s: string): (r: string)
    ensures |r| <= |s|
    decreases |s|
  {
    if s == [] then []
    else if IsSpace(s[0]) then " " + Collapse(StripStart(s))
    else [s[0]] + Collapse(s[1..])
  }

  /** `re.sub(r"\s+", " ", s).strip()`, the normal form of every encoded feature text. */
  function Normalize(s: string): (r: string)
    ensures |r| <= |s|
    ensures r == [] || (!IsSpace(r[0]) && !IsSpace(r[|r| - 1]))
    ensures NoSpace(s) ==> r == s
  {
    CollapseKeeps(s);
    Strip(Collapse(s))
  }

  /** Trimmed, and the only whitespace left is single ' ' characters. */
  predicate Normalized(s: string) {
    && (s == [] || (!IsSpace(s[0]) && !IsSpace(s[|s| - 1])))
    && (forall i :: 0 <= i < |s| && IsSpace(s[i]) ==> s[i] == ' ')
    && (forall i :: 0 <= i < |s| - 1 ==> !IsSpace(s[i]) || !IsSpace(s[i + 1]))
  }

  predicate IsWords(ws: seq<string>) {
    forall k :: 0 <= k < |ws| ==> ws[k] != [] && NoSpace(ws[k])
  }

  /** The maximal whitespace-free runs of `s`, left to right (what `s.split()` returns). */
  function Tokens(s: string): (ws: seq<string>)
    ensures IsWords(ws)
    decreases |s|
  {
    if s == [] then []
    else if IsSpace(s[0]) then Tokens(s[1..])
    else
      var k := WordEnd(s, 0);
      [s[..k]] + Tokens(s[k..])
  }

  /** The tokens of several strings, in order. */
  function FlatTokens(parts: seq<string>): seq<string> {
    if parts == [] then [] else Tokens(parts[0]) + FlatTokens(parts[1..])
  }

  lemma {:induction false} StripStartSpaces(p: string, x: string)
    requires AllSpace(p)
    ensures StripStart(p + x) == StripStart(x)
  {
    var k := SpaceEnd(x, 0);
    SpaceEndIs(p + x, 0, |p| + k);
    assert (p + x)[|p| + k..] == x[k..];
  }

  lemma {:induction false} StripStartNoLead(x: string)
    requires x == [] || !IsSpace(x[0])
    ensures StripStart(x) == x
  {
    SpaceEndIs(x, 0, 0);
  }

  lemma {:induction false} StripEndSpaces(x: string, q: string)
    requires AllSpace(q)
    ensures StripEnd(x + q) == StripEnd(x)
  {
    var k := SpaceStart(x, |x|);
    SpaceStartIs(x + q, |x + q|, k);
    assert (x + q)[..k] == x[..k];
  }

  lemma {:induction false} StripEndNoTrail(x: string)
    requires x == [] || !IsSpace(x[|x| - 1])
    ensures StripEnd(x) == x
  {
    SpaceStartIs(x, |x|, |x|);
  }

  lemma {:induction false} StripPadded(p: string, j: string, q: string)
    requires AllSpace(p) && AllSpace(q)
    requires j == [] || (!IsSpace(j[0]) && !IsSpace(j[|j| - 1]))
    ensures Strip(p + j + q) == j
  {
    assert p + j + q == p + (j + q);
    StripStartSpaces(p, j + q);
    if j == [] {
      assert j + q == q + [];
      StripStartSpaces(q, []);
      StripStartNoLead([]);
      StripEndNoTrail([]);
    } else {
      StripStartNoLead(j + q);
      StripEndSpaces(j, q);
      StripEndNoTrail(j);
    }
  }

  lemma {:induction false} CollapseWord(w: string, r: string)
    requires NoSpace(w)
    ensures Collapse(w + r) == w + Collapse(r)
    decreases |w|
  {
    if w == [] {
      assert w + r == r;
    } else {
      var c := w + r;
      assert c[0] == w[0] && !IsSpace(c[0]);
      assert c[1..] == w[1..] + r;
      assert Collapse(c) == [w[0]] + Collapse(w[1..] + r);
      CollapseWord(w[1..], r);
      assert w == [w[0]] + w[1..];
      assert [w[0]] + (w[1..] + Collapse(r)) == w + Collapse(r);
    }
  }

  /** Text without whitespace collapses to itself. */
  lemma {:induction false} CollapseKeeps(s: string)
    ensures NoSpace(s) ==> Collapse(s) == s
  {
    if NoSpace(s) {
      CollapseWord(s, []);
      assert s + [] == s;
    }
  }

  /** Leading whitespace contributes no token. */
  lemma {:induction false} TokensSkipSpaces(s: string, i: nat)
    requires i <= |s|
    requires forall j :: 0 <= j < i ==> IsSpace(s[j])
    ensures Tokens(s[i..]) == Tokens(s)
    decreases i
  {
    if i > 0 {
      TokensSkipSpaces(s, i - 1);
      assert s[i - 1..][1..] == s[i..];
    }
  }

  lemma {:induction false} WordEndExtend(a: string, x: string)
    requires x == [] || IsSpace(x[0]) || WordEnd(a, 0) < |a|
    ensures WordEnd(a + x, 0) == WordEnd(a, 0)
  {
    var k := WordEnd(a, 0);
    assert forall j :: 0 <= j < k ==> (a + x)[j] == a[j];
    assert k < |a + x| ==> IsSpace((a + x)[k]);
    WordEndIs(a + x, 0, k);
  }

  lemma {:induction false} TokensOfWord(w: string)
    requires w != [] && NoSpace(w)
    ensures Tokens(w) == [w]
  {
    WordEndIs(w, 0, |w|);
    assert w[..|w|] == w;
    assert w[|w|..] == [];
  }

  /** The tokens of `t` after its first word. */
  lemma {:induction false} TokensStep(t: string)
    requires t != [] && !IsSpace(t[0])
    ensures Tokens(t) == [t[..WordEnd(t, 0)]] + Tokens(t[WordEnd(t, 0)..])
  {
  }

  /** Collapsing after a word: the word, then one space for the run that follows, then the rest. */
  lemma {:induction false} CollapseAfterWord(t: string, k: nat)
    requires 0 < k < |t| && k == WordEnd(t, 0)
    ensures Collapse(t) == t[..k] + " " + Collapse(StripStart(t[k..]))
  {
    assert t == t[..k] + t[k..];
    CollapseWord(t[..k], t[k..]);
  }

  /** One space when `t` ends in whitespace, else nothing. */
  function TrailingSpace(t: string): string {
    if t != [] && IsSpace(t[|t| - 1]) then " " else ""
  }

  /** Without leading whitespace, collapsing yields the tokens joined by single spaces, plus one trailing space when `t` ends in whitespace. */
  lemma {:induction false} CollapseNoLead(t: string)
    requires t == [] || !IsSpace(t[0])
    ensures Collapse(t) == JoinWith(Tokens(t), " ") + TrailingSpace(t)
    decreases |t|
  {
    if t != [] {
      var k := WordEnd(t, 0);
      if k == |t| {
        CollapseOneWord(t);
      } else {
        var m := SpaceEnd(t[k..], 0);
        CollapseNoLead(t[k..][m..]);
        CollapseWordThenRest(t, k, m);
      }
    }
  }

  lemma {:induction false} CollapseOneWord(t: string)
    requires t != [] && WordEnd(t, 0) == |t|
    ensures Collapse(t) == JoinWith(Tokens(t), " ") + TrailingSpace(t)
  {
    TokensStep(t);
    assert t[..|t|] == t && t[|t|..] == [];
    assert t == t + [];
    CollapseWord(t, []);
    assert Tokens(t) == [t];
  }

  lemma {:induction false} CollapseWordThenRest(t: string, k: nat, m: nat)
    requires 0 < k < |t| && k == WordEnd(t, 0)
    requires m == SpaceEnd(t[k..], 0)
    requires var u := t[k..][m..]; Collapse(u) == JoinWith(Tokens(u), " ") + TrailingSpace(u)
    ensures Collapse(t) == JoinWith(Tokens(t), " ") + TrailingSpace(t)
  {
    var w, r := t[..k], t[k..];
    var u := r[m..];
    WordThenRestPieces(t, k, m);
    if u == [] {
      assert IsSpace(r[|r| - 1]);
      AssembleLastWord(Collapse(t), Tokens(t), w, Collapse(u), Tokens(u), TrailingSpace(t));
    } else {
      assert t[|t| - 1] == u[|u| - 1];
      AssembleWords(Collapse(t), Tokens(t), w, Collapse(u), Tokens(u), TrailingSpace(t), TrailingSpace(u));
    }
  }

  lemma {:induction false} AssembleLastWord(c: string, ws: seq<string>, w: string, cu: string, wu: seq<string>, tail: string)
    requires c == w + " " + cu && ws == [w] + wu
    requires cu == [] && wu == [] && tail == " "
    ensures c == JoinWith(ws, " ") + tail
  {
    assert ws == [w];
  }

  lemma {:induction false} AssembleWords(c: string, ws: seq<string>, w: string, cu: string, wu: seq<string>, tail: string, tailU: string)
    requires c == w + " " + cu && ws == [w] + wu
    requires wu != [] && cu == JoinWith(wu, " ") + tailU && tail == tailU
    ensures c == JoinWith(ws, " ") + tail
  {
    JoinCons(w, wu);
  }

  lemma {:induction false} WordThenRestPieces(t: string, k: nat, m: nat)
    requires 0 < k < |t| && k == WordEnd(t, 0)
    requires m == SpaceEnd(t[k..], 0)
    ensures var u := t[k..][m..];
      && Tokens(t) == [t[..k]] + Tokens(u)
      && Collapse(t) == t[..k] + " " + Collapse(u)
      && (u != [] ==> !IsSpace(u[0]) && Tokens(u) != [])
  {
    var r := t[k..];
    TokensStep(t);
    TokensSkipSpaces(r, m);
    CollapseAfterWord(t, k);
    assert StripStart(r) == r[m..];
  }

  lemma {:induction false} JoinCons(w: string, ws: seq<string>)
    requires ws != []
    ensures JoinWith([w] + ws, " ") == w + " " + JoinWith(ws, " ")
  {
    assert ([w] + ws)[1..] == ws;
  }

  lemma {:induction false} JoinWordsShape(ws: seq<string>)
    requires IsWords(ws)
    ensures ws != [] ==> JoinWith(ws, " ") != []
    ensures Normalized(JoinWith(ws, " "))
  {
    if |ws| >= 2 {
      JoinWordsShape(ws[1..]);
      var a, b := ws[0], JoinWith(ws[1..], " ");
      var s := a + " " + b;
      assert JoinWith(ws, " ") == s;
      assert forall i :: 0 <= i < |a| ==> s[i] == a[i];
      assert s[|a|] == ' ';
      assert forall i :: |a| < i < |s| ==> s[i] == b[i - |a| - 1];
    }
  }

  /** Joining words with single spaces and splitting them again gives the words back. */
  lemma {:induction false} TokensOfJoinedWords(ws: seq<string>)
    requires IsWords(ws)
    ensures Tokens(JoinWith(ws, " ")) == ws
  {
    if |ws| == 1 {
      TokensOfWord(ws[0]);
    } else if |ws| >= 2 {
      var w, rest := ws[0], JoinWith(ws[1..], " ");
      var s := w + " " + rest;
      TokensOfWord(w);
      WordEndIs(s, 0, |w|);
      assert s[..|w|] == w;
      assert s[|w|..] == " " + rest;
      assert (" " + rest)[1..] == rest;
      TokensOfJoinedWords(ws[1..]);
    }
  }

  lemma {:induction false} NormalizeLeadingSpace(s: string)
    requires s != [] && IsSpace(s[0])
    ensures Normalize(s) == JoinWith(Tokens(s), " ")
  {
    var m := SpaceEnd(s, 0);
    var u := s[m..];
    var j := JoinWith(Tokens(u), " ");
    var tail := TrailingSpace(u);
    TokensSkipSpaces(s, m);
    assert Tokens(s) == Tokens(u);
    CollapseNoLead(u);
    assert Collapse(u) == j + tail;
    assert StripStart(s) == u;
    assert Collapse(s) == " " + Collapse(u);
    JoinWordsShape(Tokens(u));
    assert AllSpace(" ") && AllSpace(tail);
    StripPadded(" ", j, tail);
    assert Collapse(s) == " " + j + tail;
  }

  lemma {:induction false} NormalizeNoLeadingSpace(s: string)
    requires s == [] || !IsSpace(s[0])
    ensures Normalize(s) == JoinWith(Tokens(s), " ")
  {
    var j := JoinWith(Tokens(s), " ");
    var tail := TrailingSpace(s);
    CollapseNoLead(s);
    assert Collapse(s) == j + tail;
    JoinWordsShape(Tokens(s));
    assert AllSpace([]) && AllSpace(tail);
    StripPadded([], j, tail);
    assert [] + j + tail == j + tail;
  }

  /** The normal form is the tokens of the input joined by single spaces. */
  lemma {:induction false} NormalizeIsJoinedTokens(s: string)
    ensures Normalize(s) == JoinWith(Tokens(s), " ")
  {
    if s != [] && IsSpace(s[0]) {
      NormalizeLeadingSpace(s);
    } else {
      NormalizeNoLeadingSpace(s);
    }
  }

  /** Result shape of `re.sub(r"\s+", " ", s).strip()`: trimmed, single spaces only. */
  lemma {:induction false} NormalizeShape(s: string)
    ensures Normalized(Normalize(s))
  {
    NormalizeIsJoinedTokens(s);
    JoinWordsShape(Tokens(s));
  }

  /** Normalizing twice is normalizing once. */
  lemma {:induction false} NormalizeIdempotent(s: string)
    ensures Normalize(Normalize(s)) == Normalize(s)
  {
    NormalizeIsJoinedTokens(s);
    NormalizeIsJoinedTokens(Normalize(s));
    TokensOfJoinedWords(Tokens(s));
  }

  /** A whitespace character separates tokens: nothing straddles it. */
  lemma {:induction false} TokensAcross(a: string, c: char, b: string)
    requires IsSpace(c)
    ensures Tokens(a + [c] + b) == Tokens(a) + Tokens(b)
    decreases |a|
  {
    var s := a + [c] + b;
    if a == [] {
      assert s[1..] == b;
    } else if IsSpace(a[0]) {
      assert s[1..] == a[1..] + [c] + b;
      TokensAcross(a[1..], c, b);
    } else {
      var k := WordEnd(a, 0);
      assert s == a + ([c] + b);
      WordEndExtend(a, [c] + b);
      assert s[..k] == a[..k];
      assert s[k..] == a[k..] + [c] + b;
      TokensAcross(a[k..], c, b);
    }
  }

  /** The tokens of a whitespace-separated join are the tokens of the parts, in order. */
  lemma {:induction false} TokensOfJoin(parts: seq<string>, c: char)
    requires IsSpace(c)
    ensures Tokens(JoinWith(parts, [c])) == FlatTokens(parts)
  {
    if |parts| == 1 {
      assert FlatTokens(parts) == Tokens(parts[0]) + FlatTokens([]);
    } else if |parts| >= 2 {
      TokensOfJoin(parts[1..], c);
      TokensAcross(parts[0], c, JoinWith(parts[1..], [c]));
      assert JoinWith(parts, [c]) == parts[0] + [c] + JoinWith(parts[1..], [c]);
    }
  }

  lemma {:induction false} JoinAppend(a: seq<string>, b: seq<string>, sep: string)
    requires a != [] && b != []
    ensures JoinWith(a + b, sep) == JoinWith(a, sep) + sep + JoinWith(b, sep)
  {
    if |a| == 1 {
      assert (a + b)[1..] == b;
    } else {
      assert (a + b)[1..] == a[1..] + b;
      JoinAppend(a[1..], b, sep);
    }
  }

  lemma {:induction false} LowerStripStart(s: string)
    ensures Lower(StripStart(s)) == StripStart(Lower(s))
  {
    var k := SpaceEnd(s, 0);
    forall j | 0 <= j <= |s| ensures j < |s| ==> IsSpace(Lower(s)[j]) == IsSpace(s[j]) {
      if j < |s| { LowerCharSpace(s[j]); }
    }
    SpaceEndIs(Lower(s), 0, k);
  }

  lemma {:induction false} LowerStripEnd(s: string)
    ensures Lower(StripEnd(s)) == StripEnd(Lower(s))
  {
    var k := SpaceStart(s, |s|);
    forall j | 0 <= j <= |s| ensures j < |s| ==> IsSpace(Lower(s)[j]) == IsSpace(s[j]) {
      if j < |s| { LowerCharSpace(s[j]); }
    }
    SpaceStartIs(Lower(s), |s|, k);
  }

  lemma {:induction false} LowerCollapse(s: string)
    ensures Lower(Collapse(s)) == Collapse(Lower(s))
    decreases |s|
  {
    if s != [] {
      LowerCharSpace(s[0]);
      if IsSpace(s[0]) {
        var rest := StripStart(s);
        LowerStripStart(s);
        LowerCollapse(rest);
        LowerConcat(" ", Collapse(rest));
      } else {
        assert Lower(s)[1..] == Lower(s[1..]);
        LowerCollapse(s[1..]);
        LowerConcat([s[0]], Collapse(s[1..]));
      }
    }
  }

  /** Lower-casing commutes with normalization (it maps whitespace to itself and nothing else to whitespace). */
  lemma {:induction false} LowerNormalize(s: string)
    ensures Lower(Normalize(s)) == Normalize(Lower(s))
  {
    LowerCollapse(s);
    LowerStripStart(Collapse(s));
    LowerStripEnd(StripStart(Collapse(s)));
  }

  lemma {:induction false} LowerJoin(parts: seq<string>, sep: string)
    requires IsLower(sep)
    ensures Lower(JoinWith(parts, sep)) == JoinWith(seq(|parts|, i requires 0 <= i < |parts| => Lower(parts[i])), sep)
  {
    if |parts| >= 2 {
      LowerJoin(parts[1..], sep);
      LowerConcat(parts[0] + sep, JoinWith(parts[1..], sep));
      LowerConcat(parts[0], sep);
      LowerIdentity(sep);
      var lp := seq(|parts|, i requires 0 <= i < |parts| => Lower(parts[i]));
      assert lp[1..] == seq(|parts[1..]|, i requires 0 <= i < |parts[1..]| => Lower(parts[1..][i]));
    }
  }
  // ---------------------------------------------------------------------------
  // String order, sorted(set(...))
  // ---------------------------------------------------------------------------

  /** `a < b` on Python strings: lexicographic by code point. */
  predicate Less(a: string, b: string)
    decreases |a|
  {
    if a == [] then b != []
    else if b == [] then false
    else if a[0] == b[0] then Less(a[1..], b[1..])
    else a[0] < b[0]
  }

  lemma {:induction false} LessIrreflexive(a: string)
    ensures !Less(a, a)
    decreases |a|
  {
    if a != [] {
      LessIrreflexive(a[1..]);
    }
  }

  lemma {:induction false} LessTotal(a: string, b: string)
    ensures Less(a, b) || a == b || Less(b, a)
    decreases |a|
  {
    if a != [] && b != [] && a[0] == b[0] {
      LessTotal(a[1..], b[1..]);
      if a[1..] == b[1..] {
        assert a == [a[0]] + a[1..] && b == [b[0]] + b[1..];
      }
    }
  }

  lemma {:induction false} LessTransitive(a: string, b: string, c: string)
    requires Less(a, b) && Less(b, c)
    ensures Less(a, c)
    decreases |a|
  {
    if a != [] && a[0] == b[0] && b[0] == c[0] {
      LessTransitive(a[1..], b[1..], c[1..]);
    }
  }

  lemma {:induction false} LessFacts()
    ensures forall a :: !Less(a, a)
    ensures forall a, b :: Less(a, b) || a == b || Less(b, a)
    ensures forall a, b, c :: Less(a, b) && Less(b, c) ==> Less(a, c)
  {
    forall a { LessIrreflexive(a); }
    forall a, b { LessTotal(a, b); }
    forall a, b, c | Less(a, b) && Less(b, c) { LessTransitive(a, b, c); }
  }

  predicate StrictlySorted(s: seq<string>) {
    forall i, j :: 0 <= i < j < |s| ==> Less(s[i], s[j])
  }

  /** Insert `x` into a strictly increasing list unless it is already there. */
  function InsertSorted(x: string, s: seq<string>): (r: seq<string>)
    requires StrictlySorted(s)
    ensures StrictlySorted(r)
    ensures forall y :: y in r <==> y == x || y in s
  {
    LessFacts();
    if s == [] then [x]
    else if x == s[0] then s
    else if Less(x, s[0]) then [x] + s
    else
      var t := InsertSorted(x, s[1..]);
      SortedHeadBelow(s);
      ConsSorted(s[0], t);
      [s[0]] + t
  }

  lemma {:induction false} SortedHeadBelow(s: seq<string>)
    requires s != [] && StrictlySorted(s)
    ensures StrictlySorted(s[1..])
    ensures forall y :: y in s[1..] ==> Less(s[0], y)
  {
    forall y | y in s[1..] ensures Less(s[0], y) {
      var k :| 0 <= k < |s[1..]| && s[1..][k] == y;
      assert s[k + 1] == y;
    }
  }

  lemma {:induction false} ConsSorted(h: string, t: seq<string>)
    requires StrictlySorted(t)
    requires forall y :: y in t ==> Less(h, y)
    ensures StrictlySorted([h] + t)
  {
    var r := [h] + t;
    forall i, j | 0 <= i < j < |r| ensures Less(r[i], r[j]) {
      assert r[j] == t[j - 1];
      if i > 0 { assert r[i] == t[i - 1]; }
    }
  }

  /** `sorted(set(xs))`: the distinct elements of `xs` in increasing order. */
  function SortedSet(xs: seq<string>): (r: seq<string>)
    ensures StrictlySorted(r)
    ensures forall y :: y in r <==> y in xs
  {
    if xs == [] then [] else InsertSorted(xs[|xs| - 1], SortedSet(xs[..|xs| - 1]))
  }

  lemma {:induction false} SortedHeadLeast(s: seq<string>)
    requires s != [] && StrictlySorted(s)
    ensures forall y :: y in s ==> y == s[0] || Less(s[0], y)
  {
  }

  /** A strictly increasing list is determined by its elements. */
  lemma {:induction false} SortedListUnique(a: seq<string>, b: seq<string>)
    requires StrictlySorted(a) && StrictlySorted(b)
    requires forall y :: y in a <==> y in b
    ensures a == b
  {
    LessFacts();
    if a != [] { assert a[0] in b; }
    if b != [] { assert b[0] in a; }
    if a != [] && b != [] {
      SortedHeadLeast(a);
      SortedHeadLeast(b);
      assert a[0] == b[0];
      forall y
        ensures y in a[1..] <==> y in b[1..]
      {
        if y in a[1..] {
          var i :| 0 <= i < |a[1..]| && a[1..][i] == y;
          assert Less(a[0], a[i + 1]);
          assert y != b[0];
          assert a[i + 1] == y && y in a && y in b;
          var k :| 0 <= k < |b| && b[k] == y;
          assert k != 0;
          assert b[1..][k - 1] == y;
        }
        if y in b[1..] {
          var i :| 0 <= i < |b[1..]| && b[1..][i] == y;
          assert Less(b[0], b[i + 1]);
          assert y != a[0];
          assert b[i + 1] == y && y in b && y in a;
          var k :| 0 <= k < |a| && a[k] == y;
          assert k != 0;
          assert a[1..][k - 1] == y;
        }
      }
      SortedListUnique(a[1..], b[1..]);
      assert a == [a[0]] + a[1..] && b == [b[0]] + b[1..];
    }
  }

  // ---------------------------------------------------------------------------
  // Numbers: float() and round()
  // ---------------------------------------------------------------------------

  /** The end of the run of ASCII digits that starts at `i`. */
  function RunEnd(s: string, i: nat): (k: nat)
    requires i <= |s|
    ensures i <= k <= |s|
    ensures AllDigits(s[i..k])
    ensures k < |s| ==> !IsDigit(s[k])
    decreases |s| - i
  {
    if i < |s| && IsDigit(s[i]) then RunEnd(s, i + 1) else i
  }

  lemma {:induction false} RunEndIs(s: string, i: nat, k: nat)
    requires i <= k <= |s|
    requires AllDigits(s[i..k])
    requires k < |s| ==> !IsDigit(s[k])
    ensures RunEnd(s, i) == k
  {
    var m := RunEnd(s, i);
    forall j | i <= j < k ensures IsDigit(s[j]) {
      assert s[i..k][j - i] == s[j];
    }
    forall j | i <= j < m ensures IsDigit(s[j]) {
      assert s[i..m][j - i] == s[j];
    }
  }

  /** The value of a string of decimal digits. */
  function DigitsValue(ds: string): nat {
    if ds == [] then 0 else DigitsValue(ds[..|ds| - 1]) * 10 + DigitValue(ds[|ds| - 1])
  }

  function Pow10(n: nat): (p: nat)
    ensures p >= 1
  {
    if n == 0 then 1 else 10 * Pow10(n - 1)
  }

  /** The number written `whole.frac`, where `frac` has `places` digits. */
  function Decimal(whole: nat, frac: nat, places: nat): (r: real)
    ensures r >= whole as real
  {
    whole as real + frac as real / Pow10(places) as real
  }

  /** Two decimal places are hundredths. */
  lemma {:induction false} DecimalCents(whole: nat, cents: nat)
    ensures Decimal(whole, cents, 2) == whole as real + cents as real / 100.0
  {
    assert Pow10(2) == 10 * Pow10(1) == 100;
  }

  /** A Python value handed to `float()`: `None`, a number, or a string. */
  datatype PyValue = PyNone | PyNum(x: real) | PyStr(s: string)

  /** `digits`, `digits.`, `digits.digits` or `.digits`, without sign. */
  function ParseUnsigned(t: string): (r: Option<real>)
    ensures r.Some? ==> HasDigit(t)
  {
    var i := RunEnd(t, 0);
    assert i > 0 ==> IsDigit(t[0]) by {
      if i > 0 { assert t[0..i][0] == t[0]; }
    }
    assert i == 0 && 1 < |t| && AllDigits(t[1..]) ==> IsDigit(t[1]) by {
      if i == 0 && 1 < |t| && AllDigits(t[1..]) { assert t[1..][0] == t[1]; }
    }
    if i == |t| then
      if i > 0 then Some(DigitsValue(t) as real) else None
    else if t[i] == '.' && AllDigits(t[i + 1..]) && (i > 0 || i + 1 < |t|) then
      Some(Decimal(DigitsValue(t[..i]), DigitsValue(t[i + 1..]), |t| - i - 1))
    else None
  }

  /** `float(s)` for a string in plain decimal notation; `None` stands for the `ValueError`. */
  function ParseFloat(s: string): (r: Option<real>)
    ensures r.Some? ==> HasDigit(Strip(s))
  {
    var t := Strip(s);
    HasDigitTail(t);
    if t != [] && t[0] == '-' then
      match ParseUnsigned(t[1..])
      case Some(v) => Some(-v)
      case None => None
    else if t != [] && t[0] == '+' then ParseUnsigned(t[1..])
    else ParseUnsigned(t)
  }

  /** A digit after the first character is a digit of the whole. */
  lemma {:induction false} HasDigitTail(t: string)
    ensures t != [] && HasDigit(t[1..]) ==> HasDigit(t)
  {
    if t != [] && HasDigit(t[1..]) {
      var i :| 0 <= i < |t[1..]| && IsDigit(t[1..][i]);
      assert IsDigit(t[i + 1]);
    }
  }

  /** `float()` of text that begins and ends with a digit is the unsigned decimal reading of that text. */
  lemma {:induction false} ParseFloatOfDigitText(t: string)
    requires t != [] && IsDigit(t[0]) && IsDigit(t[|t| - 1])
    ensures ParseFloat(t) == ParseUnsigned(t)
  {
    StripStartNoLead(t);
    StripEndNoTrail(t);
    assert Strip(t) == t;
  }

  /** `float()` of a run of digits. */
  lemma {:induction false} ParseDigitRun(d: string)
    requires d != [] && AllDigits(d)
    ensures ParseFloat(d) == Some(DigitsValue(d) as real)
  {
    assert IsDigit(d[0]) && IsDigit(d[|d| - 1]);
    ParseFloatOfDigitText(d);
    RunEndIs(d, 0, |d|);
  }

  /** `float()` of a run of digits, '.', and two more digits. */
  lemma {:induction false} ParseDigitsDotCents(t: string, n: nat)
    requires 0 < n && |t| == n + 3
    requires AllDigits(t[..n]) && t[n] == '.' && AllDigits(t[n + 1..])
    ensures ParseFloat(t) == Some(Decimal(DigitsValue(t[..n]), DigitsValue(t[n + 1..]), 2))
  {
    assert IsDigit(t[0]) by { assert t[..n][0] == t[0]; }
    assert IsDigit(t[|t| - 1]) by { assert t[n + 1..][1] == t[|t| - 1]; }
    ParseFloatOfDigitText(t);
    assert t[0..n] == t[..n];
    RunEndIs(t, 0, n);
  }

  /** `float(v)`; `None` stands for the exception it raises (`TypeError` on `None`, `ValueError` on bad text). */
  function Float(v: PyValue): (r: Option<real>)
    ensures v.PyNone? ==> r.None?
    ensures v.PyNum? ==> r == Some(v.x)
    ensures v.PyStr? && r.Some? ==> HasDigit(Strip(v.s))
  {
    match v
    case PyNone => None
    case PyNum(x) => Some(x)
    case PyStr(s) => ParseFloat(s)
  }

  /** `float("")` raises. */
  lemma {:induction false} FloatOfEmptyFails()
    ensures Float(PyStr("")) == None
  {
    assert Strip("") == "";
  }

  /** `round(x)`: the nearest integer, ties to the even neighbour. */
  function RoundHalfEven(x: real): (r: int)
    ensures x - 1.0 / 2.0 <= r as real <= x + 1.0 / 2.0
    ensures (r as real - x == 1.0 / 2.0 || x - r as real == 1.0 / 2.0) ==> r % 2 == 0
  {
    var f := x.Floor;
    var d := x - f as real;
    if d < 1.0 / 2.0 then f
    else if d > 1.0 / 2.0 then f + 1
    else if f % 2 == 0 then f
    else f + 1
  }
}
