/**
 * The training side of the fraud model (train_model.py): the amount bucket (`amt_token`) and
 * the feature text built from one labelled row (`combine`), and how that text relates to the
 * text the scoring side builds for the same message (`_combine` of ai_fraud_ml.py).
 *
 * Fitting the vectorizer and the classifier, the data split and the report are not part of
 * this model; only the text both sides feed to the vectorizer is.
 */
module Training {
  import opened Wrappers
  import opened Builtins
  import FraudModel

  /**
   * `amt_token(val)`: UNK for anything `float()` rejects, otherwise LOW below 100, MED below
   * 1000, HIGH from 1000 on; written as the training script writes it, test after test.
   */
  function AmtToken(v: PyValue): (t: string)
    ensures t == "AMOUNT_BIN:UNK" <==> Float(v).None?
    ensures t == "AMOUNT_BIN:LOW" <==> Float(v).Some? && Float(v).value < 100.0
    ensures t == "AMOUNT_BIN:MED" <==> Float(v).Some? && 100.0 <= Float(v).value < 1000.0
    ensures t == "AMOUNT_BIN:HIGH" <==> Float(v).Some? && 1000.0 <= Float(v).value
  {
    if Float(v).None? then "AMOUNT_BIN:UNK"
    else if Float(v).value < 100.0 then "AMOUNT_BIN:LOW"
    else if Float(v).value < 1000.0 then "AMOUNT_BIN:MED"
    else "AMOUNT_BIN:HIGH"
  }

  /** Training and scoring put every amount in the same bucket. */
  lemma {:induction false} AmtTokenAgrees(v: PyValue)
    ensures AmtToken(v) == FraudModel.AmtToken(v)
    ensures AmtToken(v) in {"AMOUNT_BIN:UNK", "AMOUNT_BIN:LOW", "AMOUNT_BIN:MED", "AMOUNT_BIN:HIGH"}
  {
  }

  /** What `float()` returns: a real number, or NaN. */
  datatype PyFloat = Finite(x: real) | NaN

  /** `f < b` for a Python float: every comparison with NaN is false. */
  predicate FloatBelow(f: PyFloat, b: real) {
    f.Finite? && f.x < b
  }

  /**
   * `amt_token(val)` exactly as written, on what `float(val)` returns (`None` when it raises).
   * NaN gets through `float()` and then fails both comparisons.
   */
  function AmtTokenAsWritten(f: Option<PyFloat>): (t: string)
    ensures t == "AMOUNT_BIN:UNK" <==> f.None?
    ensures t == "AMOUNT_BIN:HIGH" <==> f == Some(NaN) || (f.Some? && f.value.Finite? && 1000.0 <= f.value.x)
  {
    match f
    case None => "AMOUNT_BIN:UNK"
    case Some(x) =>
      if FloatBelow(x, 100.0) then "AMOUNT_BIN:LOW"
      else if FloatBelow(x, 1000.0) then "AMOUNT_BIN:MED"
      else "AMOUNT_BIN:HIGH"
  }

  /** On numbers, the code as written and the bucket of this model agree. */
  lemma {:induction false} AsWrittenOnNumbers(x: real)
    ensures AmtTokenAsWritten(Some(Finite(x))) == AmtToken(PyNum(x))
  {
  }

  /**
   * The empty amount cell: pandas reads it as NaN (and train_model.py:36 fills a missing column with NaN),
   * so training puts it in HIGH, while scoring puts a missing amount in UNK.
   */
  lemma {:induction false} NaNAmountIsHigh()
    ensures AmtTokenAsWritten(Some(NaN)) == "AMOUNT_BIN:HIGH"
    ensures FraudModel.AmtToken(PyNone) == "AMOUNT_BIN:UNK"
  {
  }

  /**
   * One row of the labelled table. A text column is `None` when the row has no such key or its
   * value is empty/None (`row.get(k, "") or ""`); `amount` is `None` when the key is missing or
   * the cell is empty, so that a missing amount is UNK on both sides.
   */
  datatype CsvRow = CsvRow(
    subject: Option<string>,
    body: Option<string>,
    fromDomain: Option<string>,
    replyDomain: Option<string>,
    attachmentTypes: Option<string>,
    amount: Option<PyValue>)

  /** `row.get("amount", "")`: a missing amount reads as the empty text. */
  function AmountOf(row: CsvRow): (v: PyValue)
    ensures row.amount.None? ==> v == PyStr("")
    ensures row.amount.Some? ==> v == row.amount.value
  {
    match row.amount
    case None => PyStr("")
    case Some(x) => x
  }

  /** A row without an amount is UNK for training, as a missing amount is for scoring. */
  lemma {:induction false} MissingAmountAgrees(row: CsvRow)
    requires row.amount.None?
    ensures AmtToken(AmountOf(row)) == FraudModel.AmtToken(PyNone) == "AMOUNT_BIN:UNK"
  {
    FloatOfEmptyFails();
  }

  /** The six lines `combine` joins. Unlike the scoring side, the domains and types keep their case. */
  function Lines(row: CsvRow): (ls: seq<string>)
    ensures |ls| == 6
    ensures ls[0] == FraudModel.OrEmpty(row.subject) && ls[1] == FraudModel.OrEmpty(row.body)
    ensures ls[5] == AmtToken(AmountOf(row))
    ensures "FROM:" <= ls[2] && "REPLY:" <= ls[3] && "ATTACH:" <= ls[4]
  {
    [FraudModel.OrEmpty(row.subject), FraudModel.OrEmpty(row.body),
     "FROM:" + FraudModel.OrEmpty(row.fromDomain),
     "REPLY:" + FraudModel.OrEmpty(row.replyDomain),
     "ATTACH:" + FraudModel.OrEmpty(row.attachmentTypes),
     AmtToken(AmountOf(row))]
  }

  /** `combine(row)`: the lines joined with "\n", whitespace runs collapsed to one space, trimmed. */
  function Combine(row: CsvRow): (r: string)
    ensures Normalized(r)
  {
    var txt := JoinWith(Lines(row), "\n");
    NormalizeShape(txt);
    Normalize(txt)
  }

  /** The scoring-side text of the message a row describes. */
  function Served(row: CsvRow): string {
    FraudModel.Combine(row.subject, row.body, row.fromDomain, row.replyDomain, row.attachmentTypes, AmountOf(row))
  }

  /**
   * The words of a training text: those of the subject and the body, the three tagged lines as
   * written in the row, then the amount bucket; the text is these words joined by single spaces.
   */
  lemma {:induction false} CombineTokens(row: CsvRow)
    ensures var r := Combine(row);
      && Tokens(r) == Tokens(FraudModel.OrEmpty(row.subject)) + Tokens(FraudModel.OrEmpty(row.body))
           + Tokens("FROM:" + FraudModel.OrEmpty(row.fromDomain))
           + Tokens("REPLY:" + FraudModel.OrEmpty(row.replyDomain))
           + Tokens("ATTACH:" + FraudModel.OrEmpty(row.attachmentTypes))
           + [AmtToken(AmountOf(row))]
      && r == JoinWith(Tokens(r), " ")
  {
    var ls := Lines(row);
    var txt := JoinWith(ls, "\n");
    NormalizeIsJoinedTokens(txt);
    TokensOfJoinedWords(Tokens(txt));
    TokensOfJoin(ls, '\n');
    FraudModel.FlatTokensSix(ls);
    AmtTokenAgrees(AmountOf(row));
    FraudModel.AmtTokenIsWord(AmountOf(row));
  }

  /** When the row's domains and attachment types are already lower case, both sides build the same text. */
  lemma {:induction false} AgreesWhenLower(row: CsvRow)
    requires IsLower(FraudModel.OrEmpty(row.fromDomain))
    requires IsLower(FraudModel.OrEmpty(row.replyDomain))
    requires IsLower(FraudModel.OrEmpty(row.attachmentTypes))
    ensures Combine(row) == Served(row)
  {
    LowerIdentity(FraudModel.OrEmpty(row.fromDomain));
    LowerIdentity(FraudModel.OrEmpty(row.replyDomain));
    LowerIdentity(FraudModel.OrEmpty(row.attachmentTypes));
    AmtTokenAgrees(AmountOf(row));
    assert Lines(row) == FraudModel.CombineLines(row.subject, row.body, row.fromDomain, row.replyDomain,
                                                 row.attachmentTypes, AmountOf(row));
  }

  /** Lower-cased, the two texts are always the same: they differ in letter case at most. */
  lemma {:induction false} AgreesUpToCase(row: CsvRow)
    ensures Lower(Combine(row)) == Lower(Served(row))
  {
    var a := Lines(row);
    var b := FraudModel.CombineLines(row.subject, row.body, row.fromDomain, row.replyDomain,
                                     row.attachmentTypes, AmountOf(row));
    TagLineLower("FROM:", FraudModel.OrEmpty(row.fromDomain));
    TagLineLower("REPLY:", FraudModel.OrEmpty(row.replyDomain));
    TagLineLower("ATTACH:", FraudModel.OrEmpty(row.attachmentTypes));
    AmtTokenAgrees(AmountOf(row));
    JoinSameUpToCase(a, b);
    NormalizeSameUpToCase(JoinWith(a, "\n"), JoinWith(b, "\n"));
  }

  /** Joining lines that agree up to case gives texts that agree up to case. */
  lemma {:induction false} JoinSameUpToCase(a: seq<string>, b: seq<string>)
    requires |a| == |b|
    requires forall i :: 0 <= i < |a| ==> Lower(a[i]) == Lower(b[i])
    ensures Lower(JoinWith(a, "\n")) == Lower(JoinWith(b, "\n"))
  {
    LowerJoin(a, "\n");
    LowerJoin(b, "\n");
    assert seq(|a|, i requires 0 <= i < |a| => Lower(a[i])) == seq(|b|, i requires 0 <= i < |b| => Lower(b[i]));
  }

  /** Normalising whitespace keeps two texts that agree up to case in agreement. */
  lemma {:induction false} NormalizeSameUpToCase(x: string, y: string)
    requires Lower(x) == Lower(y)
    ensures Lower(Normalize(x)) == Lower(Normalize(y))
  {
    LowerNormalize(x);
    LowerNormalize(y);
  }

  /** Lower-casing the value of a tagged line first does not change the line once it is lower-cased. */
  lemma {:induction false} TagLineLower(tag: string, x: string)
    ensures Lower(tag + x) == Lower(tag + Lower(x))
  {
    LowerConcat(tag, x);
    LowerConcat(tag, Lower(x));
    LowerOfLower(x);
  }

  /**
   * A sender domain with an upper-case letter (and no whitespace) makes the training text differ
   * from the scoring text: training keeps "FROM:ACME.com" where scoring has "FROM:acme.com".
   */
  lemma {:induction false} CaseDiverges(row: CsvRow, d: string)
    requires row.fromDomain == Some(d) && d != [] && NoSpace(d) && !IsLower(d)
    ensures Combine(row) != Served(row)
  {
    var amount := AmountOf(row);
    CombineTokens(row);
    FraudModel.CombineTokens(row.subject, row.body, row.fromDomain, row.replyDomain, row.attachmentTypes, amount);
    FromWordsDiffer(d);
    assert FraudModel.OrEmpty(row.fromDomain) == d;
    var a, b := Tokens(FraudModel.OrEmpty(row.subject)), Tokens(FraudModel.OrEmpty(row.body));
    DiffersAt(Tokens(Combine(row)), Tokens(Served(row)), a, b, "FROM:" + d, "FROM:" + Lower(d),
      Tokens("FROM:" + FraudModel.OrEmpty(row.fromDomain)),
      Tokens("FROM:" + Lower(FraudModel.OrEmpty(row.fromDomain))),
      Tokens("REPLY:" + FraudModel.OrEmpty(row.replyDomain)),
      Tokens("REPLY:" + Lower(FraudModel.OrEmpty(row.replyDomain))),
      Tokens("ATTACH:" + FraudModel.OrEmpty(row.attachmentTypes)),
      Tokens("ATTACH:" + Lower(FraudModel.OrEmpty(row.attachmentTypes))),
      AmtToken(amount), FraudModel.AmtToken(amount));
  }

  /** Tagged, a domain with an upper-case letter is one word, and so is its lower-cased form, and they differ. */
  lemma {:induction false} FromWordsDiffer(d: string)
    requires d != [] && NoSpace(d) && !IsLower(d)
    ensures Tokens("FROM:" + d) == ["FROM:" + d]
    ensures Tokens("FROM:" + Lower(d)) == ["FROM:" + Lower(d)]
    ensures "FROM:" + d != "FROM:" + Lower(d)
  {
    FraudModel.TagsAreWords();
    LowerKeepsSpace(d);
    var raw, low := "FROM:" + d, "FROM:" + Lower(d);
    assert NoSpace(raw) by {
      assert forall j :: 0 <= j < |raw| ==> raw[j] == if j < 5 then "FROM:"[j] else d[j - 5];
    }
    assert NoSpace(low) by {
      assert forall j :: 0 <= j < |low| ==> low[j] == if j < 5 then "FROM:"[j] else Lower(d)[j - 5];
    }
    TokensOfWord(raw);
    TokensOfWord(low);
    var i :| 0 <= i < |d| && 'A' <= d[i] <= 'Z';
    assert raw[5 + i] == d[i] != Lower(d)[i] == low[5 + i];
  }

  /** Two word lists that share their first words but differ in the next one are different. */
  lemma {:induction false} DiffersAt(t1: seq<string>, t2: seq<string>, a: seq<string>, b: seq<string>,
                                     x: string, y: string, c1: seq<string>, c2: seq<string>,
                                     d1: seq<string>, d2: seq<string>, e1: seq<string>, e2: seq<string>,
                                     z1: string, z2: string)
    requires c1 == [x] && c2 == [y] && x != y
    requires t1 == a + b + c1 + d1 + e1 + [z1] && t2 == a + b + c2 + d2 + e2 + [z2]
    ensures t1 != t2
  {
    assert t1[|a + b|] == x && t2[|a + b|] == y;
  }

  /**
   * A row with nothing in it still carries the three tags and the UNK bucket: its text is the
   * four words "FROM:", "REPLY:", "ATTACH:" and "AMOUNT_BIN:UNK" joined by single spaces.
   */
  lemma {:induction false} EmptyRow(row: CsvRow)
    requires row.subject.None? && row.body.None? && row.fromDomain.None?
    requires row.replyDomain.None? && row.attachmentTypes.None? && row.amount.None?
    ensures var ws := ["FROM:", "REPLY:", "ATTACH:", "AMOUNT_BIN:UNK"];
      Tokens(Combine(row)) == ws && Combine(row) == JoinWith(ws, " ")
  {
    CombineTokens(row);
    EmptyRowWords(row);
    var r := Combine(row);
    FourWords(Tokens(r), Tokens(FraudModel.OrEmpty(row.subject)), Tokens(FraudModel.OrEmpty(row.body)),
      Tokens("FROM:" + FraudModel.OrEmpty(row.fromDomain)), Tokens("REPLY:" + FraudModel.OrEmpty(row.replyDomain)),
      Tokens("ATTACH:" + FraudModel.OrEmpty(row.attachmentTypes)), AmtToken(AmountOf(row)));
  }

  lemma {:induction false} FourWords(t: seq<string>, a: seq<string>, b: seq<string>, c: seq<string>,
                                     d: seq<string>, e: seq<string>, f: string)
    requires t == a + b + c + d + e + [f]
    requires a == [] && b == [] && c == ["FROM:"] && d == ["REPLY:"] && e == ["ATTACH:"] && f == "AMOUNT_BIN:UNK"
    ensures t == ["FROM:", "REPLY:", "ATTACH:", "AMOUNT_BIN:UNK"]
  {
  }

  /** The words each line of an empty row contributes. */
  lemma {:induction false} EmptyRowWords(row: CsvRow)
    requires row.subject.None? && row.body.None? && row.fromDomain.None?
    requires row.replyDomain.None? && row.attachmentTypes.None? && row.amount.None?
    ensures Tokens(FraudModel.OrEmpty(row.subject)) == [] && Tokens(FraudModel.OrEmpty(row.body)) == []
    ensures Tokens("FROM:" + FraudModel.OrEmpty(row.fromDomain)) == ["FROM:"]
    ensures Tokens("REPLY:" + FraudModel.OrEmpty(row.replyDomain)) == ["REPLY:"]
    ensures Tokens("ATTACH:" + FraudModel.OrEmpty(row.attachmentTypes)) == ["ATTACH:"]
    ensures AmtToken(AmountOf(row)) == "AMOUNT_BIN:UNK"
  {
    FraudModel.TagsAreWords();
    FloatOfEmptyFails();
    var e := "";
    assert "FROM:" + e == "FROM:" && "REPLY:" + e == "REPLY:" && "ATTACH:" + e == "ATTACH:";
    TokensOfWord("FROM:");
    TokensOfWord("REPLY:");
    TokensOfWord("ATTACH:");
    assert Tokens(e) == [];
  }
}
