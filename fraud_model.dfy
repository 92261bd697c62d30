/**
 * The scoring side of ai_fraud_ml.py: the feature text handed to the vectorizer
 * (`_amt_token`, `_combine`) and the shaping of the classifier's output into a
 * risk score and a short list of explaining tokens (`predict_email_risk`).
 *
 * The vectorizer and the classifier are inputs: what the model says about a text
 * (its fraud probability, the columns of the features present in it, the feature
 * names and the weights) is given by a `Classifier` value.
 */
module FraudModel {
  import opened Wrappers
  import opened Builtins

  // ---------------------------------------------------------------------------
  // _amt_token
  // ---------------------------------------------------------------------------

  /**
   * `_amt_token(v)`: the amount bucket. Anything `float()` rejects (None, text that is not a
   * number) is UNK; below 100 (negatives included) LOW; below 1000 MED; otherwise HIGH.
   */
  function AmtToken(v: PyValue): (t: string)
    ensures t == "AMOUNT_BIN:UNK" <==> Float(v).None?
    ensures t == "AMOUNT_BIN:LOW" <==> Float(v).Some? && Float(v).value < 100.0
    ensures t == "AMOUNT_BIN:MED" <==> Float(v).Some? && 100.0 <= Float(v).value < 1000.0
    ensures t == "AMOUNT_BIN:HIGH" <==> Float(v).Some? && 1000.0 <= Float(v).value
  {
    match Float(v)
    case None => "AMOUNT_BIN:UNK"
    case Some(x) =>
      if x < 100.0 then "AMOUNT_BIN:LOW"
      else if x < 1000.0 then "AMOUNT_BIN:MED"
      else "AMOUNT_BIN:HIGH"
  }

  /** The bucket is one whitespace-free word, so it survives normalisation as a single token. */
  lemma {:induction false} AmtTokenIsWord(v: PyValue)
    ensures AmtToken(v) != [] && NoSpace(AmtToken(v))
    ensures Tokens(AmtToken(v)) == [AmtToken(v)]
  {
    var t := AmtToken(v);
    BucketIsWord(t);
    TokensOfWord(t);
  }

  /** Each of the four buckets is a non-empty word without whitespace. */
  lemma {:induction false} BucketIsWord(t: string)
    requires t == "AMOUNT_BIN:UNK" || t == "AMOUNT_BIN:LOW" || t == "AMOUNT_BIN:MED" || t == "AMOUNT_BIN:HIGH"
    ensures t != [] && NoSpace(t)
  {
  }

  /** The bucket never goes down as the amount goes up. */
  lemma {:induction false} AmtTokenMonotone(x: real, y: real)
    requires x <= y
    ensures BucketRank(AmtToken(PyNum(x))) <= BucketRank(AmtToken(PyNum(y)))
  {
  }

  /** The position of a bucket on the amount scale (UNK sits apart, at 0). */
  function BucketRank(t: string): nat {
    if t == "AMOUNT_BIN:LOW" then 1
    else if t == "AMOUNT_BIN:MED" then 2
    else if t == "AMOUNT_BIN:HIGH" then 3
    else 0
  }

  /** An amount that is missing, and the empty text, are UNK; negatives are LOW. */
  lemma {:induction false} AmtTokenEdges(x: real)
    requires x < 0.0
    ensures AmtToken(PyNone) == "AMOUNT_BIN:UNK"
    ensures AmtToken(PyStr("")) == "AMOUNT_BIN:UNK"
    ensures AmtToken(PyNum(x)) == "AMOUNT_BIN:LOW"
  {
    FloatOfEmptyFails();
  }

  // ---------------------------------------------------------------------------
  // _combine
  // ---------------------------------------------------------------------------

  /** `s or ""` for a value that is a string or None. */
  function OrEmpty(s: Option<string>): string {
    match s
    case None => ""
    case Some(x) => x
  }

  /** The six lines `_combine` joins, in their fixed order. */
  function CombineLines(subject: Option<string>, body: Option<string>, fromDomain: Option<string>,
                        replyDomain: Option<string>, attachmentTypes: Option<string>, amount: PyValue): (ls: seq<string>)
    ensures |ls| == 6
    ensures ls[0] == OrEmpty(subject) && ls[1] == OrEmpty(body) && ls[5] == AmtToken(amount)
    ensures "FROM:" <= ls[2] && "REPLY:" <= ls[3] && "ATTACH:" <= ls[4]
  {
    [OrEmpty(subject), OrEmpty(body),
     "FROM:" + Lower(OrEmpty(fromDomain)),
     "REPLY:" + Lower(OrEmpty(replyDomain)),
     "ATTACH:" + Lower(OrEmpty(attachmentTypes)),
     AmtToken(amount)]
  }

  /**
   * `_combine(...)`: the lines joined with "\n", every whitespace run collapsed to one space,
   * then trimmed. The result is in normal form: trimmed, and its only whitespace is single spaces.
   */
  function Combine(subject: Option<string>, body: Option<string>, fromDomain: Option<string>,
                   replyDomain: Option<string>, attachmentTypes: Option<string>, amount: PyValue): (r: string)
    ensures Normalized(r)
  {
    var txt := JoinWith(CombineLines(subject, body, fromDomain, replyDomain, attachmentTypes, amount), "\n");
    NormalizeShape(txt);
    Normalize(txt)
  }

  lemma {:induction false} FlatTokensCons(x: string, rest: seq<string>)
    ensures FlatTokens([x] + rest) == Tokens(x) + FlatTokens(rest)
  {
    assert ([x] + rest)[1..] == rest;
  }

  /** The tokens of six lines are the tokens of each line, in order. */
  lemma {:induction false} FlatTokensSix(ls: seq<string>)
    requires |ls| == 6
    ensures FlatTokens(ls) == Tokens(ls[0]) + Tokens(ls[1]) + Tokens(ls[2]) + Tokens(ls[3]) + Tokens(ls[4]) + Tokens(ls[5])
  {
    FlatTokensCons(ls[5], []);
    assert [ls[5]] + [] == ls[5..];
    FlatTokensCons(ls[4], ls[5..]);
    assert [ls[4]] + ls[5..] == ls[4..];
    FlatTokensCons(ls[3], ls[4..]);
    assert [ls[3]] + ls[4..] == ls[3..];
    FlatTokensCons(ls[2], ls[3..]);
    assert [ls[2]] + ls[3..] == ls[2..];
    FlatTokensCons(ls[1], ls[2..]);
    assert [ls[1]] + ls[2..] == ls[1..];
    FlatTokensCons(ls[0], ls[1..]);
    assert [ls[0]] + ls[1..] == ls;
    Regroup(Tokens(ls[0]), Tokens(ls[1]), Tokens(ls[2]), Tokens(ls[3]), Tokens(ls[4]), Tokens(ls[5]));
  }

  lemma {:induction false} Regroup<T>(a: seq<T>, b: seq<T>, c: seq<T>, d: seq<T>, e: seq<T>, f: seq<T>)
    ensures a + (b + (c + (d + (e + f)))) == a + b + c + d + e + f
  {
  }

  /**
   * The words of the feature text: those of the subject and the body (case kept), of the
   * tagged lower-cased domain and attachment lines, and last the amount bucket; the text is
   * exactly these words joined by single spaces.
   */
  lemma {:induction false} CombineTokens(subject: Option<string>, body: Option<string>, fromDomain: Option<string>,
                                         replyDomain: Option<string>, attachmentTypes: Option<string>, amount: PyValue)
    ensures var r := Combine(subject, body, fromDomain, replyDomain, attachmentTypes, amount);
      && Tokens(r) == Tokens(OrEmpty(subject)) + Tokens(OrEmpty(body))
           + Tokens("FROM:" + Lower(OrEmpty(fromDomain)))
           + Tokens("REPLY:" + Lower(OrEmpty(replyDomain)))
           + Tokens("ATTACH:" + Lower(OrEmpty(attachmentTypes)))
           + [AmtToken(amount)]
      && r == JoinWith(Tokens(r), " ")
  {
    var ls := CombineLines(subject, body, fromDomain, replyDomain, attachmentTypes, amount);
    var txt := JoinWith(ls, "\n");
    NormalizeIsJoinedTokens(txt);
    TokensOfJoinedWords(Tokens(txt));
    TokensOfJoin(ls, '\n');
    FlatTokensSix(ls);
    AmtTokenIsWord(amount);
  }

  /** A tag without whitespace begins the first word of the tagged line. */
  lemma {:induction false} TaggedFirstWord(tag: string, x: string)
    requires tag != [] && NoSpace(tag)
    ensures var ws := Tokens(tag + x); ws != [] && StartsWith(ws[0], tag)
  {
    var s := tag + x;
    var k := WordEnd(s, 0);
    assert forall j :: 0 <= j < |tag| ==> s[j] == tag[j];
    assert |tag| <= k;
    assert s[..k][..|tag|] == tag;
  }

  /** The three tags are single words. */
  lemma {:induction false} TagsAreWords()
    ensures NoSpace("FROM:") && NoSpace("REPLY:") && NoSpace("ATTACH:")
  {
    NoSpaceAt("FROM:");
    NoSpaceAt("REPLY:");
    NoSpaceAt("ATTACH:");
  }

  /** A text made of upper-case ASCII letters and ':' has no whitespace. */
  lemma {:induction false} NoSpaceAt(tag: string)
    requires forall i :: 0 <= i < |tag| ==> 'A' <= tag[i] <= 'Z' || tag[i] == ':'
    ensures NoSpace(tag)
  {
  }

  /** `t` begins with `p`. */
  predicate StartsWith(t: string, p: string) {
    |p| <= |t| && t[..|p|] == p
  }

  /** Three tagged groups placed in order between a head and a last word. */
  lemma {:induction false} TagsInOrder(ws: seq<string>, head: seq<string>, f: seq<string>, p: seq<string>,
                                       a: seq<string>, last: string)
    requires ws == head + f + p + a + [last]
    requires f != [] && p != [] && a != []
    requires StartsWith(f[0], "FROM:") && StartsWith(p[0], "REPLY:") && StartsWith(a[0], "ATTACH:")
    ensures exists i, j, k ::
      && |head| <= i < j < k < |ws| - 1
      && StartsWith(ws[i], "FROM:") && StartsWith(ws[j], "REPLY:") && StartsWith(ws[k], "ATTACH:")
  {
    var n := |head|;
    assert ws[n] == f[0];
    assert ws[n + |f|] == p[0];
    assert ws[n + |f| + |p|] == a[0];
  }

  /** The feature text always ends with the amount bucket. */
  lemma {:induction false} CombineEndsWithAmount(subject: Option<string>, body: Option<string>, fromDomain: Option<string>,
                                                 replyDomain: Option<string>, attachmentTypes: Option<string>, amount: PyValue)
    ensures EndsWith(Combine(subject, body, fromDomain, replyDomain, attachmentTypes, amount), AmtToken(amount))
  {
    CombineTokens(subject, body, fromDomain, replyDomain, attachmentTypes, amount);
    var ws := Tokens(Combine(subject, body, fromDomain, replyDomain, attachmentTypes, amount));
    assert ws[|ws| - 1] == AmtToken(amount);
    JoinEndsWithLast(ws);
  }

  /**
   * The words tagged "FROM:", "REPLY:" and "ATTACH:" come in that order, after the words of the
   * subject and the body and before the amount bucket.
   */
  lemma {:induction false} CombineTagOrder(subject: Option<string>, body: Option<string>, fromDomain: Option<string>,
                                           replyDomain: Option<string>, attachmentTypes: Option<string>, amount: PyValue)
    ensures var ws := Tokens(Combine(subject, body, fromDomain, replyDomain, attachmentTypes, amount));
      var n := |Tokens(OrEmpty(subject)) + Tokens(OrEmpty(body))|;
      exists i, j, k ::
        && n <= i < j < k < |ws| - 1
        && StartsWith(ws[i], "FROM:") && StartsWith(ws[j], "REPLY:") && StartsWith(ws[k], "ATTACH:")
  {
    CombineTokens(subject, body, fromDomain, replyDomain, attachmentTypes, amount);
    TaggedWordsInOrder(Tokens(Combine(subject, body, fromDomain, replyDomain, attachmentTypes, amount)),
      Tokens(OrEmpty(subject)) + Tokens(OrEmpty(body)),
      Lower(OrEmpty(fromDomain)), Lower(OrEmpty(replyDomain)), Lower(OrEmpty(attachmentTypes)), AmtToken(amount));
  }

  /** The words of the three tagged lines, between a head and a last word, keep the tags' order. */
  lemma {:induction false} TaggedWordsInOrder(ws: seq<string>, head: seq<string>, f: string, r: string, a: string,
                                              last: string)
    requires ws == head + Tokens("FROM:" + f) + Tokens("REPLY:" + r) + Tokens("ATTACH:" + a) + [last]
    ensures exists i, j, k ::
      && |head| <= i < j < k < |ws| - 1
      && StartsWith(ws[i], "FROM:") && StartsWith(ws[j], "REPLY:") && StartsWith(ws[k], "ATTACH:")
  {
    TagsAreWords();
    TaggedFirstWord("FROM:", f);
    TaggedFirstWord("REPLY:", r);
    TaggedFirstWord("ATTACH:", a);
    TagsInOrder(ws, head, Tokens("FROM:" + f), Tokens("REPLY:" + r), Tokens("ATTACH:" + a), last);
  }

  /** A space-join ends with its last word. */
  lemma {:induction false} JoinEndsWithLast(ws: seq<string>)
    requires ws != []
    ensures EndsWith(JoinWith(ws, " "), ws[|ws| - 1])
  {
    if |ws| >= 2 {
      JoinEndsWithLast(ws[1..]);
      var j := JoinWith(ws[1..], " ");
      var w := ws[|ws| - 1];
      assert ws[1..][|ws[1..]| - 1] == w;
      var s := ws[0] + " " + j;
      assert s[|s| - |w|..] == j[|j| - |w|..];
    }
  }

  /** Encoding an already encoded text again changes nothing. */
  lemma {:induction false} CombineIsNormalForm(subject: Option<string>, body: Option<string>, fromDomain: Option<string>,
                                               replyDomain: Option<string>, attachmentTypes: Option<string>, amount: PyValue)
    ensures var r := Combine(subject, body, fromDomain, replyDomain, attachmentTypes, amount);
      Normalize(r) == r
  {
    var txt := JoinWith(CombineLines(subject, body, fromDomain, replyDomain, attachmentTypes, amount), "\n");
    NormalizeIdempotent(txt);
  }

  // ---------------------------------------------------------------------------
  // predict_email_risk: the score
  // ---------------------------------------------------------------------------

  /** A probability, as `predict_proba` returns it. */
  type Proba = p: real | 0.0 <= p <= 1.0

  /** `int(round(proba * 100))`: the percentage, to the nearest integer, ties to even. */
  function RiskScore(proba: Proba): (score: int)
    ensures 0 <= score <= 100
    ensures proba * 100.0 - 1.0 / 2.0 <= score as real <= proba * 100.0 + 1.0 / 2.0
  {
    RoundHalfEven(proba * 100.0)
  }

  /** A higher probability never gives a lower score. */
  lemma {:induction false} RiskScoreMonotone(p: Proba, q: Proba)
    requires p <= q
    ensures RiskScore(p) <= RiskScore(q)
  {
    RoundMonotone(p * 100.0, q * 100.0);
  }

  lemma {:induction false} RoundMonotone(x: real, y: real)
    requires x <= y
    ensures RoundHalfEven(x) <= RoundHalfEven(y)
  {
    var fx, fy := x.Floor, y.Floor;
    assert fx <= fy;
    if fx == fy {
      var dx, dy := x - fx as real, y - fy as real;
      assert dx <= dy;
    }
  }

  // ---------------------------------------------------------------------------
  // predict_email_risk: ordering the present features by weight
  // ---------------------------------------------------------------------------

  /** A present feature: its name and its weight in the classifier. */
  type Tok = (string, real)

  /** Weights never increase from left to right. */
  predicate Descending(ts: seq<Tok>) {
    forall i, j :: 0 <= i < j < |ts| ==> ts[i].1 >= ts[j].1
  }

  /** Put `x` after every pair whose weight is at least its own. */
  function InsertDesc(x: Tok, s: seq<Tok>): (r: seq<Tok>)
    ensures |r| == |s| + 1
  {
    if s == [] then [x]
    else if s[0].1 >= x.1 then [s[0]] + InsertDesc(x, s[1..])
    else [x] + s
  }

  lemma {:induction false} InsertDescPerm(x: Tok, s: seq<Tok>)
    ensures multiset(InsertDesc(x, s)) == multiset(s) + multiset{x}
  {
    if s != [] && s[0].1 >= x.1 {
      InsertDescPerm(x, s[1..]);
      assert s == [s[0]] + s[1..];
    }
  }

  /** No weight in `s` exceeds `b`. */
  predicate AtMost(s: seq<Tok>, b: real) {
    forall k :: 0 <= k < |s| ==> s[k].1 <= b
  }

  lemma {:induction false} DescendingCons(h: Tok, t: seq<Tok>)
    requires Descending(t) && AtMost(t, h.1)
    ensures Descending([h] + t)
  {
    var r := [h] + t;
    forall i, j | 0 <= i < j < |r| ensures r[i].1 >= r[j].1 {
      assert r[j] == t[j - 1];
      if i > 0 { assert r[i] == t[i - 1]; }
    }
  }

  lemma {:induction false} DescendingTail(s: seq<Tok>)
    requires s != [] && Descending(s)
    ensures Descending(s[1..]) && AtMost(s[1..], s[0].1)
  {
    assert forall k :: 0 <= k < |s[1..]| ==> s[1..][k] == s[k + 1];
  }

  lemma {:induction false} InsertDescAtMost(x: Tok, s: seq<Tok>, b: real)
    requires AtMost(s, b) && x.1 <= b
    ensures AtMost(InsertDesc(x, s), b)
  {
    if s != [] && s[0].1 >= x.1 {
      assert AtMost(s[1..], b) by { assert forall k :: 0 <= k < |s[1..]| ==> s[1..][k] == s[k + 1]; }
      InsertDescAtMost(x, s[1..], b);
      var t := InsertDesc(x, s[1..]);
      assert forall k :: 1 <= k < |[s[0]] + t| ==> ([s[0]] + t)[k] == t[k - 1];
    } else if s != [] {
      assert forall k :: 1 <= k < |[x] + s| ==> ([x] + s)[k] == s[k - 1];
    }
  }

  lemma {:induction false} InsertDescDescending(x: Tok, s: seq<Tok>)
    requires Descending(s)
    ensures Descending(InsertDesc(x, s))
  {
    if s == [] {
    } else if s[0].1 >= x.1 {
      DescendingTail(s);
      InsertDescDescending(x, s[1..]);
      InsertDescAtMost(x, s[1..], s[0].1);
      DescendingCons(s[0], InsertDesc(x, s[1..]));
    } else {
      assert AtMost(s, x.1) by {
        forall k | 0 <= k < |s| ensures s[k].1 <= x.1 {
          assert s[0].1 >= s[k].1 || k == 0;
        }
      }
      DescendingCons(x, s);
    }
  }

  /**
   * `toks.sort(key=weight, reverse=True)`: a stable sort by decreasing weight, as the pairs
   * inserted one by one, left to right, each after the pairs of at least its weight.
   */
  function SortDesc(ts: seq<Tok>): (r: seq<Tok>)
    ensures |r| == |ts|
  {
    if ts == [] then [] else InsertDesc(ts[|ts| - 1], SortDesc(ts[..|ts| - 1]))
  }

  /** The sort orders by weight and keeps exactly the pairs it was given. */
  lemma {:induction false} SortDescSorted(ts: seq<Tok>)
    ensures Descending(SortDesc(ts))
    ensures multiset(SortDesc(ts)) == multiset(ts)
  {
    if ts != [] {
      SortDescSorted(ts[..|ts| - 1]);
      InsertDescDescending(ts[|ts| - 1], SortDesc(ts[..|ts| - 1]));
      InsertDescPerm(ts[|ts| - 1], SortDesc(ts[..|ts| - 1]));
      assert ts == ts[..|ts| - 1] + [ts[|ts| - 1]];
    }
  }

  /** The pairs of weight `w`, in order. */
  function WithWeight(ts: seq<Tok>, w: real): seq<Tok> {
    if ts == [] then []
    else (if ts[0].1 == w then [ts[0]] else []) + WithWeight(ts[1..], w)
  }

  lemma {:induction false} WithWeightAppend(a: seq<Tok>, b: seq<Tok>, w: real)
    ensures WithWeight(a + b, w) == WithWeight(a, w) + WithWeight(b, w)
  {
    if a != [] {
      assert (a + b)[0] == a[0];
      assert (a + b)[1..] == a[1..] + b;
      WithWeightAppend(a[1..], b, w);
      var h := if a[0].1 == w then [a[0]] else [];
      assert WithWeight(a + b, w) == h + WithWeight(a[1..] + b, w);
      assert WithWeight(a, w) == h + WithWeight(a[1..], w);
    } else {
      assert a + b == b;
    }
  }

  lemma {:induction false} WithWeightNone(s: seq<Tok>, w: real)
    requires forall k :: 0 <= k < |s| ==> s[k].1 < w
    ensures WithWeight(s, w) == []
  {
    if s != [] {
      WithWeightNone(s[1..], w);
    }
  }

  lemma {:induction false} WithWeightCons(h: Tok, r: seq<Tok>, w: real)
    ensures WithWeight([h] + r, w) == (if h.1 == w then [h] else []) + WithWeight(r, w)
  {
    assert ([h] + r)[1..] == r;
  }

  lemma {:induction false} InsertDescStable(x: Tok, s: seq<Tok>, w: real)
    requires Descending(s)
    ensures WithWeight(InsertDesc(x, s), w) == WithWeight(s, w) + WithWeight([x], w)
  {
    if s == [] {
      assert InsertDesc(x, s) == [x];
    } else if s[0].1 >= x.1 {
      InsertDescStable(x, s[1..], w);
      WithWeightCons(s[0], InsertDesc(x, s[1..]), w);
      WithWeightCons(s[0], s[1..], w);
      assert [s[0]] + s[1..] == s;
    } else {
      WithWeightAppend([x], s, w);
      if x.1 == w {
        WithWeightNone(s, w);
      }
    }
  }

  /**
   * The sort is stable: among pairs of equal weight the original order is kept, which is what
   * decides the chosen tokens when weights tie.
   */
  lemma {:induction false} SortDescStable(ts: seq<Tok>, w: real)
    ensures WithWeight(SortDesc(ts), w) == WithWeight(ts, w)
  {
    if ts != [] {
      var init, x := ts[..|ts| - 1], ts[|ts| - 1];
      SortDescSorted(init);
      SortDescStable(init, w);
      InsertDescStable(x, SortDesc(init), w);
      assert ts == init + [x];
      WithWeightAppend(init, [x], w);
    }
  }

  /** Where `x` lands in a descending list: after the pairs of at least its weight. */
  lemma {:induction false} InsertDescAt(x: Tok, s: seq<Tok>, j: nat)
    requires j <= |s| && Descending(s)
    requires j > 0 ==> s[j - 1].1 >= x.1
    requires forall k :: j <= k < |s| ==> s[k].1 < x.1
    ensures InsertDesc(x, s) == s[..j] + [x] + s[j..]
    decreases j
  {
    if j == 0 {
      if s != [] { assert s[0].1 < x.1; }
    } else {
      assert s[0].1 >= s[j - 1].1;
      InsertDescAt(x, s[1..], j - 1);
      assert s[1..][..j - 1] == s[..j][1..];
      assert s[1..][j - 1..] == s[j..];
      assert s == [s[0]] + s[1..];
    }
  }

  /** `toks.sort(key=lambda x: x[1], reverse=True)`, in place, as an insertion sort. */
  method SortByWeightDesc(a: array<Tok>)
    modifies a
    ensures a[..] == SortDesc(old(a[..]))
  {
    ghost var orig := a[..];
    for i := 0 to a.Length
      invariant a[..i] == SortDesc(orig[..i])
      invariant a[i..] == orig[i..]
    {
      SortDescSnoc(orig, i);
      ghost var before := a[..];
      InsertLast(a, i);
      assert a[i + 1..] == before[i + 1..] == orig[i + 1..] by { assert before[i..] == orig[i..]; }
    }
    assert orig[..a.Length] == orig;
  }

  /** Sorting one more pair inserts it into the sorted earlier ones. */
  lemma {:induction false} SortDescSnoc(ts: seq<Tok>, i: nat)
    requires i < |ts|
    ensures Descending(SortDesc(ts[..i]))
    ensures SortDesc(ts[..i + 1]) == InsertDesc(ts[i], SortDesc(ts[..i]))
  {
    SortDescSorted(ts[..i]);
    assert ts[..i + 1][..i] == ts[..i];
    assert ts[..i + 1][i] == ts[i];
  }

  /** Moves `a[i]` left into the descending prefix `a[..i]`, past the pairs of smaller weight. */
  method InsertLast(a: array<Tok>, i: nat)
    requires i < a.Length && Descending(a[..i])
    modifies a
    ensures a[..i + 1] == InsertDesc(old(a[i]), old(a[..i]))
    ensures a[i + 1..] == old(a[i + 1..])
  {
    var x := a[i];
    ghost var s := a[..i];
    ghost var rest := a[i + 1..];
    var j := ShiftSmaller(a, i, x);
    a[j] := x;
    InsertDescAt(x, s, j);
    ShiftedInsert(a[..], s, x, i, j);
    assert a[i + 1..] == rest;
  }

  /**
   * Shifts one place right the pairs of `a[..i]` lighter than `x`, scanning from the right; `j`
   * is the hole left open for `x`.
   */
  method ShiftSmaller(a: array<Tok>, i: nat, x: Tok) returns (j: nat)
    requires i < a.Length
    modifies a
    ensures j <= i
    ensures forall k :: 0 <= k < j ==> a[k] == old(a[k])
    ensures forall k :: j < k <= i ==> a[k] == old(a[k - 1])
    ensures forall k :: j <= k < i ==> old(a[k]).1 < x.1
    ensures j > 0 ==> a[j - 1].1 >= x.1
    ensures forall k :: i < k < a.Length ==> a[k] == old(a[k])
  {
    j := i;
    while j > 0 && a[j - 1].1 < x.1
      invariant j <= i
      invariant forall k :: 0 <= k < j ==> a[k] == old(a[k])
      invariant forall k :: j < k <= i ==> a[k] == old(a[k - 1])
      invariant forall k :: j <= k < i ==> old(a[k]).1 < x.1
      invariant forall k :: i < k < a.Length ==> a[k] == old(a[k])
    {
      a[j] := a[j - 1];
      j := j - 1;
    }
  }

  /** The array contents after the shift: the prefix, then `x`, then the shifted pairs. */
  lemma {:induction false} ShiftedInsert(arr: seq<Tok>, s: seq<Tok>, x: Tok, i: nat, j: nat)
    requires j <= i == |s| < |arr|
    requires forall k :: 0 <= k < j ==> arr[k] == s[k]
    requires arr[j] == x
    requires forall k :: j < k <= i ==> arr[k] == s[k - 1]
    ensures arr[..i + 1] == s[..j] + [x] + s[j..]
  {
    var r := s[..j] + [x] + s[j..];
    forall k | 0 <= k <= i ensures arr[k] == r[k] {
      if k < j {
        assert r[k] == s[k];
      } else if j < k {
        assert r[k] == s[k - 1];
      }
    }
  }

  // ---------------------------------------------------------------------------
  // predict_email_risk: the top tokens
  // ---------------------------------------------------------------------------

  /** The pairs of positive weight, in order (`[... for t, w in ts if w > 0]`). */
  function Positive(ts: seq<Tok>): (ps: seq<Tok>)
    ensures |ps| <= |ts|
    ensures forall k :: 0 <= k < |ps| ==> ps[k].1 > 0.0
  {
    if ts == [] then []
    else (if ts[0].1 > 0.0 then [ts[0]] else []) + Positive(ts[1..])
  }

  /** The pairs of weight zero or below, in order. */
  function NonPositive(ts: seq<Tok>): (ns: seq<Tok>)
    ensures forall k :: 0 <= k < |ns| ==> ns[k].1 <= 0.0
  {
    if ts == [] then []
    else (if ts[0].1 > 0.0 then [] else [ts[0]]) + NonPositive(ts[1..])
  }

  lemma {:induction false} PositiveSplit(ts: seq<Tok>)
    ensures multiset(ts) == multiset(Positive(ts)) + multiset(NonPositive(ts))
  {
    if ts != [] {
      var h, t := ts[0], ts[1..];
      PositiveSplit(t);
      assert ts == [h] + t;
      SplitCons(h, t, Positive(t), NonPositive(t));
      if h.1 > 0.0 {
        assert Positive(ts) == [h] + Positive(t) && NonPositive(ts) == NonPositive(t);
      } else {
        assert Positive(ts) == Positive(t) && NonPositive(ts) == [h] + NonPositive(t);
      }
    }
  }

  /** A split of `t` into two parts extends to `[h] + t` by putting `h` in either part. */
  lemma {:induction false} SplitCons<T>(h: T, t: seq<T>, p: seq<T>, n: seq<T>)
    requires multiset(t) == multiset(p) + multiset(n)
    ensures multiset([h] + t) == multiset([h] + p) + multiset(n)
    ensures multiset([h] + t) == multiset(p) + multiset([h] + n)
  {
  }

  lemma {:induction false} PositiveAtMost(ts: seq<Tok>, b: real)
    requires AtMost(ts, b)
    ensures AtMost(Positive(ts), b)
  {
    if ts != [] {
      assert AtMost(ts[1..], b) by { assert forall k :: 0 <= k < |ts[1..]| ==> ts[1..][k] == ts[k + 1]; }
      PositiveAtMost(ts[1..], b);
      var p := Positive(ts[1..]);
      assert forall k :: 1 <= k < |[ts[0]] + p| ==> ([ts[0]] + p)[k] == p[k - 1];
    }
  }

  /** Dropping the pairs of weight zero or below keeps the order by weight. */
  lemma {:induction false} PositiveDescending(ts: seq<Tok>)
    requires Descending(ts)
    ensures Descending(Positive(ts))
  {
    if ts != [] {
      DescendingTail(ts);
      PositiveDescending(ts[1..]);
      if ts[0].1 > 0.0 {
        PositiveAtMost(ts[1..], ts[0].1);
        DescendingCons(ts[0], Positive(ts[1..]));
      }
    }
  }

  /** The first five pairs of a list (`toks[:5]`). */
  function FirstFive(ts: seq<Tok>): (r: seq<Tok>)
    ensures |r| <= 5 && |r| <= |ts| && r == ts[..|r|]
    ensures |r| == if |ts| < 5 then |ts| else 5
  {
    if |ts| <= 5 then ts else ts[..5]
  }

  /** The chosen pairs: the positive-weight pairs among the first five of the sorted list. */
  function TopPairs(sorted: seq<Tok>): (top: seq<Tok>)
    ensures |top| <= 5
  {
    Positive(FirstFive(sorted))
  }

  /** The names of a list of pairs, in order. */
  function Names(ts: seq<Tok>): (ns: seq<string>)
    ensures |ns| == |ts|
    ensures forall k :: 0 <= k < |ts| ==> ns[k] == ts[k].0
  {
    if ts == [] then [] else [ts[0].0] + Names(ts[1..])
  }

  /** `[t for t, w in toks[:5] if w > 0][:5]` for the sorted `toks`. */
  function TopTokens(sorted: seq<Tok>): seq<string> {
    Names(TopPairs(sorted))
  }

  /** A list of positive weights is kept whole. */
  lemma {:induction false} PositiveAll(ts: seq<Tok>)
    requires forall k :: 0 <= k < |ts| ==> ts[k].1 > 0.0
    ensures Positive(ts) == ts
  {
    if ts != [] {
      assert forall k :: 0 <= k < |ts[1..]| ==> ts[1..][k] == ts[k + 1];
      PositiveAll(ts[1..]);
      assert ts == [ts[0]] + ts[1..];
    }
  }

  /** Every pair of positive weight is kept. */
  lemma {:induction false} PositiveKeeps(ts: seq<Tok>, x: Tok)
    requires x in ts && x.1 > 0.0
    ensures x in Positive(ts)
  {
    if ts[0] != x {
      assert x in ts[1..];
      PositiveKeeps(ts[1..], x);
    }
  }

  lemma {:induction false} DescendingPrefix(s: seq<Tok>, m: nat)
    requires m <= |s| && Descending(s)
    ensures Descending(s[..m])
  {
    assert forall k :: 0 <= k < m ==> s[..m][k] == s[k];
  }

  /**
   * The chosen pairs: at most five, each of positive weight, by non-increasing weight, and
   * drawn from the present pairs (as a multiset: a pair is chosen at most as often as present).
   */
  lemma {:induction false} TopPairsShape(ts: seq<Tok>)
    ensures var top := TopPairs(SortDesc(ts));
      && |top| <= 5
      && (forall k :: 0 <= k < |top| ==> top[k].1 > 0.0)
      && Descending(top)
      && multiset(top) <= multiset(ts)
  {
    var srt := SortDesc(ts);
    SortDescSorted(ts);
    var f := FirstFive(srt);
    DescendingPrefix(srt, |f|);
    PositiveDescending(f);
    PositiveSplit(f);
    assert srt == f + srt[|f|..];
  }

  /**
   * Nothing better was left out: a present pair of positive weight that was not chosen weighs
   * no more than any chosen pair.
   */
  lemma {:induction false} TopPairsMaximal(ts: seq<Tok>)
    ensures var top := TopPairs(SortDesc(ts));
      forall x, c :: x in multiset(ts) - multiset(top) && x.1 > 0.0 && c in top ==> x.1 <= c.1
  {
    var srt := SortDesc(ts);
    SortDescSorted(ts);
    var f := FirstFive(srt);
    var top := Positive(f);
    var rest := srt[|f|..];
    var low := NonPositive(f);
    PositiveSplit(f);
    assert srt == f + rest;
    LeftOut(multiset(ts), multiset(top), multiset(low), multiset(rest));
    LaterWeighLess(srt, f, rest);
    forall x, c | x in multiset(ts) - multiset(top) && x.1 > 0.0 && c in top
      ensures x.1 <= c.1
    {
      PickOut(x, c, f, top, low, rest);
    }
  }

  lemma {:induction false} PickOut(x: Tok, c: Tok, f: seq<Tok>, top: seq<Tok>, low: seq<Tok>, rest: seq<Tok>)
    requires x in multiset(low) + multiset(rest) && x.1 > 0.0 && c in top
    requires forall k :: 0 <= k < |low| ==> low[k].1 <= 0.0
    requires multiset(f) == multiset(top) + multiset(low)
    requires forall y, d :: y in rest && d in f ==> y.1 <= d.1
    ensures x.1 <= c.1
  {
    assert x !in low;
    assert x in rest;
    assert c in multiset(f);
  }

  lemma {:induction false} LeftOut<T>(all: multiset<T>, chosen: multiset<T>, low: multiset<T>, rest: multiset<T>)
    requires all == chosen + low + rest
    ensures all - chosen == low + rest
  {
  }

  /** In a descending list, what comes after a prefix weighs no more than anything in it. */
  lemma {:induction false} LaterWeighLess(srt: seq<Tok>, f: seq<Tok>, rest: seq<Tok>)
    requires Descending(srt) && srt == f + rest
    ensures forall x, c :: x in rest && c in f ==> x.1 <= c.1
  {
    forall x, c | x in rest && c in f ensures x.1 <= c.1 {
      var k :| 0 <= k < |rest| && rest[k] == x;
      var l :| 0 <= l < |f| && f[l] == c;
      assert srt[l] == c && srt[|f| + k] == x;
    }
  }

  /** Fewer than five chosen means every present pair of positive weight was chosen. */
  lemma {:induction false} TopPairsAllWhenFew(ts: seq<Tok>)
    ensures var top := TopPairs(SortDesc(ts));
      |top| < 5 ==> forall x :: x in ts && x.1 > 0.0 ==> x in top
  {
    var srt := SortDesc(ts);
    SortDescSorted(ts);
    var f := FirstFive(srt);
    var top := Positive(f);
    if |top| < 5 {
      forall x | x in ts && x.1 > 0.0 ensures x in top {
        assert x in multiset(srt);
        var k :| 0 <= k < |srt| && srt[k] == x;
        if |srt| > 5 {
          if forall l :: 0 <= l < 5 ==> f[l].1 > 0.0 {
            PositiveAll(f);
          }
          var l :| 0 <= l < 5 && f[l].1 <= 0.0;
          assert srt[l] == f[l];
          assert srt[l].1 < srt[k].1;
          assert k <= l;
          assert f[k] == x;
        }
        PositiveKeeps(f, x);
      }
    }
  }

  // ---------------------------------------------------------------------------
  // predict_email_risk
  // ---------------------------------------------------------------------------

  /**
   * What the vectorizer and the classifier give for a feature text: the fraud probability
   * (`predict_proba(vec.transform([text]))[0, 1]`, absent when that raises, as when the model
   * files cannot be loaded), the columns of the features present in the text
   * (`X.nonzero()[1]`), the feature names and the weights (`coef_[0]`), each of the last two
   * absent when reading it raises.
   */
  datatype Classifier = Classifier(
    proba: string -> Option<Proba>,
    present: string -> seq<nat>,
    featureNames: Option<seq<string>>,
    weights: Option<seq<real>>)

  /** `[(feats[i], weights[i]) for i in idx]`; absent when an index is out of range. */
  function PresentPairs(feats: seq<string>, weights: seq<real>, idx: seq<nat>): (r: Option<seq<Tok>>)
    ensures r.Some? <==> forall k :: 0 <= k < |idx| ==> idx[k] < |feats| && idx[k] < |weights|
    ensures r.Some? ==> |r.value| == |idx|
    ensures r.Some? ==> forall k :: 0 <= k < |idx| ==> r.value[k] == (feats[idx[k]], weights[idx[k]])
  {
    if idx == [] then Some([])
    else
      var i := idx[0];
      if i < |feats| && i < |weights| then
        match PresentPairs(feats, weights, idx[1..])
        case None => None
        case Some(rest) => Some([(feats[i], weights[i])] + rest)
      else None
  }

  /** The explaining tokens of a text; the empty list when anything in the explanation raises. */
  function Explanation(clf: Classifier, text: string): (top: seq<string>)
    ensures |top| <= 5
    ensures clf.featureNames.None? || clf.weights.None? ==> top == []
  {
    if clf.featureNames.None? || clf.weights.None? then []
    else
      match PresentPairs(clf.featureNames.value, clf.weights.value, clf.present(text))
      case None => []
      case Some(ts) => TopTokens(SortDesc(ts))
  }

  /** The result of `predict_email_risk`. */
  datatype Risk = Risk(score: int, topTokens: seq<string>)

  /** The explanation block of `predict_email_risk`: build the pairs, sort them in place, keep the top. */
  method Explain(clf: Classifier, text: string) returns (top: seq<string>)
    ensures top == Explanation(clf, text)
    ensures |top| <= 5
  {
    if clf.featureNames.None? || clf.weights.None? {
      return [];
    }
    var toks := PresentPairs(clf.featureNames.value, clf.weights.value, clf.present(text));
    if toks.None? {
      return [];
    }
    var ts := toks.value;
    var a := new Tok[|ts|](k requires 0 <= k < |ts| => ts[k]);
    assert a[..] == ts;
    SortByWeightDesc(a);
    top := TopTokens(a[..]);
  }

  /** What `predict_email_risk` returns for the fields of a message: `None` when scoring raises. */
  function Prediction(clf: Classifier, subject: Option<string>, body: Option<string>, fromDomain: Option<string>,
                      replyDomain: Option<string>, attachmentTypes: Option<string>, amount: PyValue): (r: Option<Risk>)
    ensures r.None? <==> clf.proba(Combine(subject, body, fromDomain, replyDomain, attachmentTypes, amount)).None?
    ensures r.Some? ==> 0 <= r.value.score <= 100 && |r.value.topTokens| <= 5
  {
    var text := Combine(subject, body, fromDomain, replyDomain, attachmentTypes, amount);
    match clf.proba(text)
    case None => None
    case Some(p) => Some(Risk(RiskScore(p), Explanation(clf, text)))
  }

  /**
   * `predict_email_risk(...)`: the score of the encoded text, and its explaining tokens. The
   * call raises (here: no result) exactly when the probability cannot be had; a failure in the
   * explanation only empties the token list.
   */
  method PredictEmailRisk(clf: Classifier, subject: Option<string>, body: Option<string>, fromDomain: Option<string>,
                          replyDomain: Option<string>, attachmentTypes: Option<string>, amount: PyValue)
    returns (r: Option<Risk>)
    ensures r == Prediction(clf, subject, body, fromDomain, replyDomain, attachmentTypes, amount)
    ensures var text := Combine(subject, body, fromDomain, replyDomain, attachmentTypes, amount);
      && (r.None? <==> clf.proba(text).None?)
      && (r.Some? ==> r.value == Risk(RiskScore(clf.proba(text).value), Explanation(clf, text)))
    ensures r.Some? ==> 0 <= r.value.score <= 100 && |r.value.topTokens| <= 5
  {
    var text := Combine(subject, body, fromDomain, replyDomain, attachmentTypes, amount);
    var proba := clf.proba(text);
    if proba.None? {
      return None;
    }
    var score := RiskScore(proba.value);
    var top := Explain(clf, text);
    r := Some(Risk(score, top));
  }
}
