/**
 * The batch run of main.py (`process_all`, with `maybe_keepalive`): the search result is cut to
 * the most recent ids, visited newest first, and every fetched message the keyword gate accepts
 * is scored and appended to the ledger.
 *
 * The mailbox is the search result: `None` when the search fails, otherwise one entry per id in
 * mailbox order, `None` for a message whose fetch fails. The address parser, the classifier, the
 * clock and the replies to the keep-alive probe are inputs (`Env`).
 */
module Pipeline {
  import opened Wrappers
  import opened Builtins
  import opened Mime
  import opened Fields
  import FraudModel
  import opened Ledger

  /** A fetched message: its decoded headers ("" when a header is absent) and its part tree. */
  datatype Message = Message(
    subject: string,
    from: string,
    date: string,
    replyTo: string,
    messageId: string,
    content: Part)

  /**
   * The server's answer to a keep-alive probe: it is alive, the connection aborts (swallowed), or
   * the probe raises anything else (which ends the run).
   */
  datatype ProbeReply = Alive | Aborted | Broken

  datatype Env = Env(
    parseAddr: string -> (string, string),
    classifier: FraudModel.Classifier,
    clock: nat -> string,
    probe: nat -> ProbeReply)

  /** Why a run ended early, and at which (1-based) step. */
  datatype Stop = ProbeFailed(step: nat) | LedgerFailed(step: nat)

  datatype Outcome = SearchFailed | Scanned(count: nat, stop: Option<Stop>)

  /** Probes are sent every this many messages. */
  const ProbeEvery: nat := 50

  /** At most this many of the most recent messages are scanned. */
  const ScanCap: int := 200

  /** Attachments are listed but not written to disk. */
  const SaveAttachments: bool := false

  // ---------------------------------------------------------------------------
  // Which messages, in which order
  // ---------------------------------------------------------------------------

  /** `maybe_keepalive(imap, i, every=50)`: a probe goes out before step `i` (1-based). */
  predicate ProbeDue(i: nat)
    ensures ProbeDue(i) ==> i == 0 || ProbeEvery <= i
  {
    i % ProbeEvery == 0
  }

  /** Steps 1 to 49 send no probe; step 50 does, and so does every 50th step after it. */
  lemma {:induction false} ProbeSchedule(i: nat)
    ensures 1 <= i < 50 ==> !ProbeDue(i)
    ensures ProbeDue(i) <==> ProbeDue(i + 50)
    ensures ProbeDue(50 * i)
  {
  }

  /**
   * Where `ids[-min(limit, 200):]` starts, with Python's slice rules: a negative start counts from
   * the end and stops at 0, `-0` is 0, and a positive start is capped at the length.
   */
  function CutStart(n: nat, limit: int): (s: nat)
    ensures s <= n
    ensures limit > 0 ==> n - s == Min3(limit, ScanCap, n)
    ensures limit == 0 ==> s == 0
  {
    var k := if limit < ScanCap then limit else ScanCap;
    if k > 0 then (if k <= n then n - k else 0)
    else if -k <= n then -k
    else n
  }

  /** `reversed(s)`. */
  function Reversed<T>(s: seq<T>): (r: seq<T>)
    ensures |r| == |s|
    ensures forall j :: 0 <= j < |s| ==> r[j] == s[|s| - 1 - j]
  {
    if s == [] then [] else [s[|s| - 1]] + Reversed(s[..|s| - 1])
  }

  /** The entries the run visits: the cut, newest first. */
  function Visit<T>(ids: seq<T>, limit: int): (v: seq<T>)
    ensures |v| == |ids| - CutStart(|ids|, limit)
    ensures forall j :: 0 <= j < |v| ==> v[j] == ids[|ids| - 1 - j]
  {
    Reversed(ids[CutStart(|ids|, limit)..])
  }

  /**
   * A positive limit visits the min(limit, 200) most recent ids (all when there are fewer); a zero
   * limit visits every id; a negative limit skips the -limit oldest ids. In every case the visit
   * goes newest first.
   */
  lemma {:induction false} VisitShape<T>(ids: seq<T>, limit: int)
    ensures var v := Visit(ids, limit);
      && (limit > 0 ==> |v| == Min3(limit, 200, |ids|))
      && (limit == 0 ==> |v| == |ids|)
      && (limit < 0 ==> |v| == |ids| - (if -limit <= |ids| then -limit else |ids|))
      && (forall j :: 0 <= j < |v| ==> v[j] == ids[|ids| - 1 - j])
  {
  }

  function Min3(a: int, b: int, c: int): int {
    if a <= b && a <= c then a else if b <= c then b else c
  }

  // ---------------------------------------------------------------------------
  // One message
  // ---------------------------------------------------------------------------

  /** `[a[0] for a in attachments]`. */
  function NamesOf(atts: seq<Attachment>): (ns: seq<string>)
    ensures |ns| == |atts|
    ensures forall i :: 0 <= i < |atts| ==> ns[i] == atts[i].name
  {
    seq(|atts|, i requires 0 <= i < |atts| => atts[i].name)
  }

  /** `any(is_pdf for ...)`. */
  predicate HasPdf(atts: seq<Attachment>) {
    exists i :: 0 <= i < |atts| && atts[i].isPdf
  }

  /** The keyword gate on a fetched message. */
  predicate Accepted(m: Message) {
    LooksLikeInvoice(m.subject, BodyText(m.content), Attachments(m.content, SaveAttachments)).0
  }

  /** `None` for a missing amount, as handed to the scoring call. */
  function AmountArg(a: Option<real>): PyValue {
    match a
    case None => PyNone
    case Some(x) => PyNum(x)
  }

  /** The scoring result of a message. */
  function RiskOf(m: Message, env: Env): (r: Option<FraudModel.Risk>)
    ensures r.Some? ==> 0 <= r.value.score <= 100 && |r.value.topTokens| <= 5
  {
    var body := BodyText(m.content);
    var names := NamesOf(Attachments(m.content, SaveAttachments));
    FraudModel.Prediction(env.classifier, Some(m.subject), Some(body),
      Some(DomainFromHeader(m.from, env.parseAddr)), Some(DomainFromHeader(m.replyTo, env.parseAddr)),
      Some(AttachmentTypes(names)), AmountArg(ExtractAmountGuess(m.subject + "\n" + body)))
  }

  /** Everything saved about an accepted message. */
  function RecordOf(m: Message, env: Env): (r: InvoiceRecord)
    ensures |r.attachNames| == |Attachments(m.content, SaveAttachments)|
    ensures r.mlScore.Some? ==> 0 <= r.mlScore.value <= 100
    ensures r.mlScore.None? ==> r.mlTokens == ""
    ensures r.amountGuess == ExtractAmountGuess(m.subject + "\n" + BodyText(m.content))
  {
    var body := BodyText(m.content);
    var atts := Attachments(m.content, SaveAttachments);
    var risk := RiskOf(m, env);
    InvoiceRecord(
      m.from, m.subject, m.date, HasPdf(atts), NamesOf(atts),
      LooksLikeInvoice(m.subject, body, atts).1, m.messageId,
      DomainFromHeader(m.from, env.parseAddr), DomainFromHeader(m.replyTo, env.parseAddr),
      AttachmentTypes(NamesOf(atts)),
      ExtractAmountGuess(m.subject + "\n" + body),
      if risk.Some? then Some(risk.value.score) else None,
      if risk.Some? then JoinWith(risk.value.topTokens, ", ") else "")
  }

  /**
   * The record of an accepted message carries the reason "keyword", a score in 0..100 or none
   * when scoring failed (and then no tokens), and the amount searched in the subject first.
   */
  lemma {:induction false} RecordShape(m: Message, env: Env)
    requires Accepted(m)
    ensures var r := RecordOf(m, env);
      && r.reason == "keyword"
      && (r.mlScore.Some? ==> 0 <= r.mlScore.value <= 100)
      && (r.mlScore.None? ==> r.mlTokens == "")
      && r.amountGuess == ExtractAmountGuess(m.subject + "\n" + BodyText(m.content))
  {
  }

  // ---------------------------------------------------------------------------
  // The run, step by step
  // ---------------------------------------------------------------------------

  /** Where a run stands: the ledger file, the number of saved invoices, and why it stopped, if it did. */
  datatype Progress = Progress(present: bool, sheets: map<string, seq<Row>>, count: nat, stop: Option<Stop>)

  /**
   * What the loop needs of a message once the helpers have done their work: whether the gate
   * accepts it and the ledger row it gets at a given step; and the replies to the probes.
   */
  datatype Policy = Policy(accepts: Message -> bool, rowAt: (nat, Message) -> Row, probe: nat -> ProbeReply)

  /** The policy of main.py in the environment `env`. */
  function PolicyOf(env: Env): Policy {
    Policy(m => Accepted(m), (i: nat, m: Message) => RowOf(env.clock(i), RecordOf(m, env)), env.probe)
  }

  /** Step `i` (1-based) of the loop, on the entry fetched for it. */
  function Step(p: Progress, i: nat, entry: Option<Message>, pol: Policy): (q: Progress)
    ensures q.stop == p.stop || q.stop == Some(ProbeFailed(i)) || q.stop == Some(LedgerFailed(i))
    ensures q.count == p.count || q.count == p.count + 1
    ensures q.count == p.count + 1 ==> q.present && q.stop == p.stop && entry.Some? && pol.accepts(entry.value)
  {
    if ProbeDue(i) && pol.probe(i) == Broken then p.(stop := Some(ProbeFailed(i)))
    else
      match entry
      case None => p
      case Some(m) =>
        if !pol.accepts(m) then p
        else
          match Appended(p.present, p.sheets, pol.rowAt(i, m))
          case None => p.(stop := Some(LedgerFailed(i)))
          case Some(sheets) => p.(present := true, sheets := sheets, count := p.count + 1)
  }

  /** The run over the visited entries `vs`, from `p0`; once stopped, nothing more happens. */
  function Run(p0: Progress, vs: seq<Option<Message>>, pol: Policy): (q: Progress)
    ensures p0.stop.Some? ==> q == p0
    ensures p0.count <= q.count <= p0.count + |vs|
  {
    if vs == [] then p0
    else
      var p := Run(p0, vs[..|vs| - 1], pol);
      if p.stop.Some? then p else Step(p, |vs|, vs[|vs| - 1], pol)
  }

  /** The (step, message) pairs the gate accepts among fetched entries, in visiting order. */
  function Saved(vs: seq<Option<Message>>, pol: Policy): (s: seq<(nat, Message)>)
    ensures |s| <= |vs|
    ensures forall k :: 0 <= k < |s| ==> 1 <= s[k].0 <= |vs| && vs[s[k].0 - 1] == Some(s[k].1) && pol.accepts(s[k].1)
    ensures forall k, l :: 0 <= k < l < |s| ==> s[k].0 < s[l].0
  {
    if vs == [] then []
    else
      var e := vs[|vs| - 1];
      Saved(vs[..|vs| - 1], pol) + (if e.Some? && pol.accepts(e.value) then [(|vs|, e.value)] else [])
  }

  /** The ledger rows of saved messages. */
  function RowsOf(s: seq<(nat, Message)>, pol: Policy): (rows: seq<Row>)
    ensures |rows| == |s|
    ensures forall k :: 0 <= k < |s| ==> rows[k] == pol.rowAt(s[k].0, s[k].1)
  {
    if s == [] then []
    else RowsOf(s[..|s| - 1], pol) + [pol.rowAt(s[|s| - 1].0, s[|s| - 1].1)]
  }

  /**
   * `p` is where an unstopped run from `p0` stands after saving `s`: `count` has grown by their
   * number, and the invoice sheet is the opened file's sheet followed by their rows; when nothing
   * was saved the file is exactly as before.
   */
  predicate SavedExactly(p0: Progress, p: Progress, s: seq<(nat, Message)>, pol: Policy) {
    && p.count == p0.count + |s|
    && (s == [] ==> p.present == p0.present && p.sheets == p0.sheets)
    && (s != [] ==>
          && p.present
          && Sheet in Opened(p0.present, p0.sheets)
          && p.sheets == Opened(p0.present, p0.sheets)[Sheet := Opened(p0.present, p0.sheets)[Sheet] + RowsOf(s, pol)])
  }

  /**
   * A run that is not stopped has saved exactly the accepted fetched messages, in visiting order,
   * one row each at the end of the invoice sheet, and counted them.
   */
  lemma {:induction false} RunRows(p0: Progress, vs: seq<Option<Message>>, pol: Policy)
    requires p0.stop.None?
    ensures var p := Run(p0, vs, pol); p.stop.None? ==> SavedExactly(p0, p, Saved(vs, pol), pol)
    decreases |vs|
  {
    if vs != [] {
      var init := vs[..|vs| - 1];
      var q := Run(p0, init, pol);
      RunRows(p0, init, pol);
      if q.stop.None? {
        var e := vs[|vs| - 1];
        assert Run(p0, vs, pol) == Step(q, |vs|, e, pol);
        assert Saved(vs, pol) == Saved(init, pol) + (if e.Some? && pol.accepts(e.value) then [(|vs|, e.value)] else []);
        StepSaves(p0, q, |vs|, e, Saved(init, pol), pol);
      }
    }
  }

  /** One step keeps `SavedExactly`, adding the entry when it is fetched and accepted. */
  lemma {:induction false} StepSaves(p0: Progress, q: Progress, i: nat, e: Option<Message>,
                                     s0: seq<(nat, Message)>, pol: Policy)
    requires q.stop.None? && SavedExactly(p0, q, s0, pol)
    ensures var p := Step(q, i, e, pol);
      p.stop.None? ==> SavedExactly(p0, p, s0 + (if e.Some? && pol.accepts(e.value) then [(i, e.value)] else []), pol)
  {
    if !(ProbeDue(i) && pol.probe(i) == Broken) {
      if e.None? || !pol.accepts(e.value) {
        assert s0 + [] == s0;
      } else {
        var row := pol.rowAt(i, e.value);
        StepOnAccepted(q, i, e.value, pol);
        RowsOfSnoc(s0, (i, e.value), pol);
        if Appended(q.present, q.sheets, row).Some? {
          SheetGrows(p0, q, s0, row, pol);
        }
      }
    }
  }

  /** Appending one more row to a run's file extends the rows saved so far. */
  lemma {:induction false} SheetGrows(p0: Progress, q: Progress, s0: seq<(nat, Message)>, row: Row, pol: Policy)
    requires SavedExactly(p0, q, s0, pol)
    requires Appended(q.present, q.sheets, row).Some?
    ensures var m := Opened(p0.present, p0.sheets);
      && Sheet in m
      && Appended(q.present, q.sheets, row).value == m[Sheet := m[Sheet] + (RowsOf(s0, pol) + [row])]
  {
    var m := Opened(p0.present, p0.sheets);
    if s0 == [] {
      assert RowsOf(s0, pol) == [];
      assert [] + [row] == [row];
    } else {
      var n := m[Sheet := m[Sheet] + RowsOf(s0, pol)];
      assert (m[Sheet] + RowsOf(s0, pol)) + [row] == m[Sheet] + (RowsOf(s0, pol) + [row]);
      assert n[Sheet := n[Sheet] + [row]] == m[Sheet := m[Sheet] + (RowsOf(s0, pol) + [row])];
    }
  }

  lemma {:induction false} RowsOfSnoc(s: seq<(nat, Message)>, x: (nat, Message), pol: Policy)
    ensures RowsOf(s + [x], pol) == RowsOf(s, pol) + [pol.rowAt(x.0, x.1)]
  {
    assert (s + [x])[..|s|] == s;
  }

  /** Once a run stops it stays stopped: later entries change nothing. */
  lemma {:induction false} RunStaysStopped(p0: Progress, vs: seq<Option<Message>>, k: nat, pol: Policy)
    requires k <= |vs|
    requires Run(p0, vs[..k], pol).stop.Some?
    ensures Run(p0, vs, pol) == Run(p0, vs[..k], pol)
    decreases |vs| - k
  {
    if k < |vs| {
      var next := vs[..k + 1];
      assert next[..|next| - 1] == vs[..k];
      RunStaysStopped(p0, vs, k + 1, pol);
    } else {
      assert vs[..k] == vs;
    }
  }

  /**
   * Why a run stops: a probe at a due step raised, or an existing ledger file without an
   * "Invoices" sheet met the first invoice to save, before anything was saved.
   */
  lemma {:induction false} RunStops(p0: Progress, vs: seq<Option<Message>>, pol: Policy)
    requires p0.stop.None?
    ensures var p := Run(p0, vs, pol);
      && (p.stop.Some? && p.stop.value.ProbeFailed? ==>
            ProbeDue(p.stop.value.step) && pol.probe(p.stop.value.step) == Broken && p.stop.value.step <= |vs|)
      && (p.stop.Some? && p.stop.value.LedgerFailed? ==>
            p0.present && Sheet !in p0.sheets && p.count == p0.count && p.sheets == p0.sheets)
    decreases |vs|
  {
    if vs != [] {
      RunStops(p0, vs[..|vs| - 1], pol);
      RunRows(p0, vs[..|vs| - 1], pol);
    }
  }

  /**
   * Only probes at due steps matter, and an aborted probe is as good as a live one: two
   * policies that agree on which due probes raise give the same run.
   */
  lemma {:induction false} OnlyDueProbesMatter(p0: Progress, vs: seq<Option<Message>>, pol1: Policy, pol2: Policy)
    requires pol1.accepts == pol2.accepts && pol1.rowAt == pol2.rowAt
    requires forall i :: ProbeDue(i) ==> (pol1.probe(i) == Broken <==> pol2.probe(i) == Broken)
    ensures Run(p0, vs, pol1) == Run(p0, vs, pol2)
    decreases |vs|
  {
    if vs != [] {
      OnlyDueProbesMatter(p0, vs[..|vs| - 1], pol1, pol2);
    }
  }

  // ---------------------------------------------------------------------------
  // process_all
  // ---------------------------------------------------------------------------

  /**
   * `process_all(limit)` on the ledger file `wb`. A failed search returns before the loop and
   * changes nothing; otherwise the run visits `Visit(mailbox, limit)` and the file, the count and
   * the reason for stopping early are those of `Run`.
   */
  method ProcessAll(wb: Workbook, search: Option<seq<Option<Message>>>, limit: int, env: Env) returns (out: Outcome)
    modifies wb
    ensures search.None? ==> out == SearchFailed && wb.present == old(wb.present) && wb.sheets == old(wb.sheets)
    ensures search.Some? ==>
      var p := Run(Progress(old(wb.present), old(wb.sheets), 0, None), Visit(search.value, limit), PolicyOf(env));
      && out == Scanned(p.count, p.stop)
      && wb.present == p.present && wb.sheets == p.sheets
  {
    if search.None? {
      return SearchFailed;
    }
    var visit := Visit(search.value, limit);
    ghost var pol := PolicyOf(env);
    ghost var p0 := Progress(wb.present, wb.sheets, 0, None);
    var count: nat := 0;
    var stop: Option<Stop> := None;
    var k := 0;
    while k < |visit| && stop.None?
      invariant 0 <= k <= |visit|
      invariant Run(p0, visit[..k], pol) == Progress(wb.present, wb.sheets, count, stop)
    {
      assert visit[..k + 1][..k] == visit[..k];
      count, stop := ProcessOne(wb, k + 1, visit[k], env, count);
      k := k + 1;
    }
    if stop.Some? {
      RunStaysStopped(p0, visit, k, pol);
    } else {
      assert visit[..k] == visit;
    }
    out := Scanned(count, stop);
  }

  /**
   * One pass of the loop body at step `i`: the keep-alive probe when due, then, for a fetched
   * message, the gate, the scoring call and the ledger append.
   */
  method ProcessOne(wb: Workbook, i: nat, entry: Option<Message>, env: Env, count: nat)
    returns (count': nat, stop: Option<Stop>)
    modifies wb
    ensures Step(Progress(old(wb.present), old(wb.sheets), count, None), i, entry, PolicyOf(env))
      == Progress(wb.present, wb.sheets, count', stop)
  {
    if ProbeDue(i) && env.probe(i) == Broken {
      return count, Some(ProbeFailed(i));
    }
    if entry.None? {
      return count, None;
    }
    var accepted, rec := Judge(entry.value, env);
    PolicyAgrees(env, i, entry.value);
    count', stop := SaveIfInvoice(wb, i, entry.value, accepted, rec, env.clock(i), count, PolicyOf(env));
  }

  /** What the run's policy says about one message: the gate, and the row its record becomes. */
  lemma {:induction false} PolicyAgrees(env: Env, i: nat, m: Message)
    ensures PolicyOf(env).accepts(m) == Accepted(m)
    ensures PolicyOf(env).rowAt(i, m) == RowOf(env.clock(i), RecordOf(m, env))
    ensures PolicyOf(env).probe == env.probe
  {
  }

  /**
   * A fetched message at step `i` (past the probe), judged by the gate: saved, with the time
   * `savedAt`, when the gate accepts it.
   */
  method SaveIfInvoice(wb: Workbook, i: nat, m: Message, accepted: bool, rec: InvoiceRecord, savedAt: string,
                       count: nat, ghost pol: Policy)
    returns (count': nat, stop: Option<Stop>)
    requires !(ProbeDue(i) && pol.probe(i) == Broken)
    requires pol.accepts(m) == accepted
    requires accepted ==> pol.rowAt(i, m) == RowOf(savedAt, rec)
    modifies wb
    ensures Step(Progress(old(wb.present), old(wb.sheets), count, None), i, Some(m), pol)
      == Progress(wb.present, wb.sheets, count', stop)
  {
    ghost var p := Progress(wb.present, wb.sheets, count, None);
    if !accepted {
      StepOnRejected(p, i, m, pol);
      return count, None;
    }
    StepOnAccepted(p, i, m, pol);
    ghost var r := Appended(p.present, p.sheets, RowOf(savedAt, rec));
    var ok := wb.AppendInvoiceRow(savedAt, rec);
    if ok {
      count', stop := count + 1, None;
      assert Step(p, i, Some(m), pol) == Progress(true, r.value, count', None);
    } else {
      count', stop := count, Some(LedgerFailed(i));
      assert Step(p, i, Some(m), pol) == Progress(p.present, p.sheets, count, stop);
    }
  }

  /** A rejected message leaves the run as it was. */
  lemma {:induction false} StepOnRejected(p: Progress, i: nat, m: Message, pol: Policy)
    requires !(ProbeDue(i) && pol.probe(i) == Broken) && !pol.accepts(m)
    ensures Step(p, i, Some(m), pol) == p
  {
  }

  /** An accepted message is appended, or stops the run when the ledger lookup fails. */
  lemma {:induction false} StepOnAccepted(p: Progress, i: nat, m: Message, pol: Policy)
    requires !(ProbeDue(i) && pol.probe(i) == Broken) && pol.accepts(m)
    ensures var r := Appended(p.present, p.sheets, pol.rowAt(i, m));
      && (r.None? ==> Step(p, i, Some(m), pol) == p.(stop := Some(LedgerFailed(i))))
      && (r.Some? ==> Step(p, i, Some(m), pol) == p.(present := true, sheets := r.value, count := p.count + 1))
  {
  }

  /**
   * The gate on a fetched message and, when it accepts, the record to save: the body text and
   * attachment list are extracted first, as the loop body does.
   */
  method Judge(m: Message, env: Env) returns (accepted: bool, rec: InvoiceRecord)
    ensures accepted == Accepted(m)
    ensures accepted ==> rec == RecordOf(m, env)
  {
    var body := ExtractTextBody(m.content);
    var attachments := ListAttachments(m.content, SaveAttachments);
    var gate := LooksLikeInvoice(m.subject, body, attachments);
    accepted := gate.0;
    if accepted {
      rec := Record(m, body, attachments, gate.1, env);
    } else {
      rec := InvoiceRecord("", "", "", false, [], "", "", "", "", "", None, None, "");
    }
  }

  /** The fields of an accepted message, computed as the loop body computes them. */
  method Record(m: Message, body: string, attachments: seq<Attachment>, reason: string, env: Env)
    returns (rec: InvoiceRecord)
    requires body == BodyText(m.content) && attachments == Attachments(m.content, SaveAttachments)
    requires reason == LooksLikeInvoice(m.subject, body, attachments).1
    ensures rec == RecordOf(m, env)
  {
    var names := if |attachments| > 0 then NamesOf(attachments) else [];
    var fromDomain := DomainFromHeader(m.from, env.parseAddr);
    var replyDomain := DomainFromHeader(m.replyTo, env.parseAddr);
    var types := AttachmentTypesFromList(names);
    var amount := ExtractAmountGuess(m.subject + "\n" + body);
    var ml := FraudModel.PredictEmailRisk(env.classifier, Some(m.subject), Some(body), Some(fromDomain),
                                          Some(replyDomain), Some(types), AmountArg(amount));
    var mlScore, mlTokens := None, "";
    if ml.Some? {
      mlScore, mlTokens := Some(ml.value.score), JoinWith(ml.value.topTokens, ", ");
    }
    rec := InvoiceRecord(m.from, m.subject, m.date, HasPdf(attachments), names, reason, m.messageId,
                         fromDomain, replyDomain, types, amount, mlScore, mlTokens);
  }
}
