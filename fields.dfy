/**
 * The field helpers of main.py that turn a decoded message into the inputs of the
 * fraud model and of the invoice gate: the sender domain (`domain_from_header`),
 * the attachment extension list (`attachment_types_from_list`), the amount guess
 * (`extract_amount_guess`) and the keyword gate (`looks_like_invoice`).
 */
module Fields {
  import opened Wrappers
  import opened Builtins
  import opened Mime

  // ---------------------------------------------------------------------------
  // domain_from_header
  // ---------------------------------------------------------------------------

  /**
   * The lower-cased domain of the address in a From/Reply-To header. The address is what
   * `parseAddr` (the mail library's `parseaddr`, taken as given) finds in the header; the domain
   * is the piece after its first '@', up to the next '@' if there is one.
   */
  function DomainFromHeader(header: string, parseAddr: string -> (string, string)): (r: string)
    ensures '@' !in r && IsLower(r)
    ensures var addr := parseAddr(header).1; addr == "" || '@' !in addr ==> r == ""
  {
    var addr := parseAddr(header).1;
    if addr != "" && '@' in addr then
      var d := Split(addr, '@')[1];
      LowerKeepsOther(d, '@');
      LowerOfLower(d);
      Lower(d)
    else ""
  }

  /** The domain is exactly the lower-cased text between the first '@' and the next '@' (or the end). */
  lemma {:induction false} DomainBetweenAts(header: string, parseAddr: string -> (string, string))
    requires '@' in parseAddr(header).1
    ensures var addr := parseAddr(header).1;
      var i := IndexOf(addr, '@');
      var rest := addr[i + 1..];
      DomainFromHeader(header, parseAddr) == Lower(rest[..IndexOf(rest, '@')])
  {
    var addr := parseAddr(header).1;
    var i := IndexOf(addr, '@');
    var rest := addr[i + 1..];
    assert Split(addr, '@') == [addr[..i]] + Split(rest, '@');
    SplitHead(rest, '@');
  }

  /** For an ordinary address `local@domain` the result is the lower-cased domain. */
  lemma {:induction false} DomainOfAddress(header: string, parseAddr: string -> (string, string), local: string, domain: string)
    requires '@' !in local && '@' !in domain
    requires parseAddr(header).1 == local + "@" + domain
    ensures DomainFromHeader(header, parseAddr) == Lower(domain)
  {
    var addr := parseAddr(header).1;
    assert addr[|local|] == '@';
    assert forall j :: 0 <= j < |local| ==> addr[j] == local[j];
    assert IndexOf(addr, '@') == |local|;
    DomainBetweenAts(header, parseAddr);
    var rest := addr[|local| + 1..];
    assert rest == domain;
    assert IndexOf(rest, '@') == |rest|;
    assert rest[..|rest|] == rest;
  }

  // ---------------------------------------------------------------------------
  // attachment_types_from_list
  // ---------------------------------------------------------------------------

  /** `exists k in [lo, hi) :: p[k] != '.'`. */
  predicate HasNonDot(p: string, lo: int, hi: int)
    requires 0 <= lo && hi <= |p|
  {
    exists k :: lo <= k < hi && p[k] != '.'
  }

  /**
   * `os.path.splitext(p)` with POSIX rules: the extension runs from the last '.' after the last
   * '/', provided the file-name part has something other than dots before that '.'.
   */
  function SplitExt(p: string): (r: (string, string))
    ensures r.0 + r.1 == p
    ensures r.1 != "" ==> r.1[0] == '.' && '.' !in r.1[1..] && '/' !in r.1
    ensures var sep, dot := LastIndexOf(p, '/'), LastIndexOf(p, '.');
      && (r.1 != "" <==> dot > sep && HasNonDot(p, sep + 1, dot))
      && (r.1 != "" ==> r.1 == p[dot..])
  {
    var sep := LastIndexOf(p, '/');
    var dot := LastIndexOf(p, '.');
    if dot > sep && HasNonDot(p, sep + 1, dot) then
      assert p[..dot] + p[dot..] == p;
      assert forall j :: 0 <= j < |p[dot..]| ==> p[dot..][j] == p[dot + j];
      (p[..dot], p[dot..])
    else (p, "")
  }

  lemma {:induction false} StripOneDot(ext: string)
    requires ext != [] && ext[0] == '.' && '.' !in ext[1..]
    ensures LStripChar(ext, '.') == ext[1..]
  {
    assert ext[1..] == [] || ext[1..][0] != '.';
  }

  /**
   * The extension a name contributes: the stripped name's `splitext` extension without its
   * dot, lower-cased; nothing when the extension is empty. ("file." contributes "".)
   */
  function ExtensionOf(name: string): (e: Option<string>)
    ensures e.Some? ==> '.' !in e.value && '/' !in e.value && IsLower(e.value)
    ensures var ext := SplitExt(Strip(name)).1;
      && (e.Some? <==> ext != "")
      && (e.Some? ==> e.value == Lower(ext[1..]))
  {
    var ext := SplitExt(Strip(name)).1;
    if ext != "" then
      StripOneDot(ext);
      LowerKeepsOther(ext[1..], '.');
      LowerKeepsOther(ext[1..], '/');
      LowerOfLower(ext[1..]);
      Some(Lower(LStripChar(ext, '.')))
    else None
  }

  /** The extensions of `names`, in order, with repeats (the list `exts`). */
  function Extensions(names: seq<string>): (es: seq<string>)
    ensures forall e :: e in es <==> exists i :: 0 <= i < |names| && ExtensionOf(names[i]) == Some(e)
  {
    if names == [] then []
    else
      var init, last := names[..|names| - 1], names[|names| - 1];
      var tail := match ExtensionOf(last) case Some(e) => [e] case None => [];
      SnocHits(names, init, Extensions(init), tail, ExtensionOf);
      Extensions(init) + tail
  }

  /** The values `f` gives on a list, grown by one more element. */
  lemma {:induction false} SnocHits<T>(xs: seq<T>, init: seq<T>, es0: seq<string>, tail: seq<string>,
                                      f: T -> Option<string>)
    requires xs != [] && init == xs[..|xs| - 1]
    requires forall e :: e in es0 <==> exists i :: 0 <= i < |init| && f(init[i]) == Some(e)
    requires tail == match f(xs[|xs| - 1]) case Some(e) => [e] case None => []
    ensures forall e :: e in es0 + tail <==> exists i :: 0 <= i < |xs| && f(xs[i]) == Some(e)
  {
    var n := |xs| - 1;
    forall e | e in es0 + tail
      ensures exists i :: 0 <= i < |xs| && f(xs[i]) == Some(e)
    {
      if e in es0 {
        var i :| 0 <= i < n && f(init[i]) == Some(e);
        assert xs[i] == init[i];
      } else {
        assert f(xs[n]) == Some(e);
      }
    }
    forall e | exists i :: 0 <= i < |xs| && f(xs[i]) == Some(e)
      ensures e in es0 + tail
    {
      var i :| 0 <= i < |xs| && f(xs[i]) == Some(e);
      if i < n {
        assert xs[i] == init[i];
        assert e in es0;
      } else {
        assert e in tail;
      }
    }
  }

  /** `",".join(sorted(set(exts)))`: the distinct extensions in increasing order, comma-joined. */
  function AttachmentTypes(names: seq<string>): (t: string)
    ensures (forall i :: 0 <= i < |names| ==> ExtensionOf(names[i]).None?) ==> t == ""
  {
    var xs := SortedSet(Extensions(names));
    assert xs != [] ==> xs[0] in Extensions(names);
    JoinWith(xs, ",")
  }

  /** `attachment_types_from_list(names)`. */
  method AttachmentTypesFromList(names: seq<string>) returns (r: string)
    ensures r == AttachmentTypes(names)
    ensures names == [] ==> r == ""
  {
    var exts: seq<string> := [];
    for i := 0 to |names|
      invariant exts == Extensions(names[..i])
    {
      assert names[..i + 1][..i] == names[..i];
      var ext := SplitExt(Strip(names[i])).1;
      if ext != "" {
        exts := exts + [Lower(LStripChar(ext, '.'))];
      }
    }
    assert names[..|names|] == names;
    if exts != [] {
      r := JoinWith(SortedSet(exts), ",");
    } else {
      r := "";
    }
  }

  /** The result depends only on which extensions occur: order and repetition of names do not matter. */
  lemma {:induction false} AttachmentTypesOrderFree(n1: seq<string>, n2: seq<string>)
    requires forall e :: e in Extensions(n1) <==> e in Extensions(n2)
    ensures AttachmentTypes(n1) == AttachmentTypes(n2)
  {
    SortedListUnique(SortedSet(Extensions(n1)), SortedSet(Extensions(n2)));
  }

  /** A stripped name without a '.' contributes nothing. */
  lemma {:induction false} NoDotNoExtension(name: string)
    requires '.' !in Strip(name)
    ensures ExtensionOf(name) == None
  {
    var p := Strip(name);
    assert LastIndexOf(p, '.') == -1;
  }

  /**
   * The ordinary case: a stripped name `base.ext`, where `ext` has no '.' or '/' and the last
   * path component of `base` has something other than dots, contributes `ext` lower-cased.
   */
  lemma {:induction false} PlainNameExtension(name: string, base: string, ext: string)
    requires Strip(name) == base + "." + ext
    requires '.' !in ext && '/' !in ext
    requires exists k :: LastIndexOf(base, '/') < k < |base| && base[k] != '.'
    ensures ExtensionOf(name) == Some(Lower(ext))
  {
    var p := base + "." + ext;
    var b := LastIndexOf(base, '/');
    JoinedLastDot(base, ext);
    JoinedLastSlash(base, ext);
    var k :| b < k < |base| && base[k] != '.';
    assert p[k] == base[k];
    assert HasNonDot(p, b + 1, |base|);
    assert p[|base|..][1..] == ext;
  }

  /** In `base.ext`, with no '.' in `ext`, the last '.' is the one joining them. */
  lemma {:induction false} JoinedLastDot(base: string, ext: string)
    requires '.' !in ext
    ensures LastIndexOf(base + "." + ext, '.') == |base|
  {
    var p := base + "." + ext;
    assert forall j :: |base| < j < |p| ==> p[j] == ext[j - |base| - 1];
    LastIndexOfIs(p, '.', |base|);
  }

  /** In `base.ext`, with no '/' in `ext`, the last '/' is the last '/' of `base`. */
  lemma {:induction false} JoinedLastSlash(base: string, ext: string)
    requires '/' !in ext
    ensures LastIndexOf(base + "." + ext, '/') == LastIndexOf(base, '/')
  {
    var p := base + "." + ext;
    assert forall j :: |base| < j < |p| ==> p[j] == ext[j - |base| - 1];
    assert forall j :: 0 <= j < |base| ==> p[j] == base[j];
    LastIndexOfIs(p, '/', LastIndexOf(base, '/'));
  }

  /** Stripping " a.PDF " leaves the name `a.PDF`, split at its dot. */
  lemma PaddedPdfStrip()
    ensures Strip(" a.PDF ") == "a" + "." + "PDF"
  {
    var j := "a.PDF";
    assert " " + j + " " == " a.PDF ";
    StripPadded(" ", j, " ");
    assert j == "a" + "." + "PDF";
  }

  /** "a.PDF", padded with spaces, contributes "pdf". */
  lemma PaddedPdfExample()
    ensures ExtensionOf(" a.PDF ") == Some("pdf")
  {
    PaddedPdfStrip();
    assert LastIndexOf("a", '/') == -1;
    PlainNameExtension(" a.PDF ", "a", "PDF");
    LowerPdf();
  }

  lemma LowerPdf()
    ensures Lower("PDF") == "pdf"
  {
    var l := Lower("PDF");
    assert l[0] == 'p' && l[1] == 'd' && l[2] == 'f';
  }

  /** A name whose only dot leads it, such as ".bashrc", contributes nothing. */
  lemma DotFileExample()
    ensures ExtensionOf(".bashrc") == None
  {
    var p := ".bashrc";
    StripStartNoLead(p);
    StripEndNoTrail(p);
    assert Strip(p) == p;
    LastIndexOfIs(p, '/', -1);
    LastIndexOfIs(p, '.', 0);
    assert !HasNonDot(p, 0, 0);
  }

  /** The quirk of a trailing dot: "file." contributes the empty extension. */
  lemma TrailingDotQuirk()
    ensures ExtensionOf("file.") == Some("")
  {
    var p := "file.";
    StripStartNoLead(p);
    StripEndNoTrail(p);
    assert Strip(p) == p;
    assert LastIndexOf(p, '/') == -1;
    assert LastIndexOf(p, '.') == 4;
    assert p[0] != '.';
    assert SplitExt(p).1 == ".";
    StripOneDot(".");
  }

  // ---------------------------------------------------------------------------
  // extract_amount_guess
  // ---------------------------------------------------------------------------

  /** The index of the first ASCII digit at or after `i`, or `|s|`. */
  function DigitFrom(s: string, i: nat): (k: nat)
    requires i <= |s|
    ensures i <= k <= |s|
    ensures k < |s| ==> IsDigit(s[k])
    ensures forall j :: i <= j < k ==> !IsDigit(s[j])
    decreases |s| - i
  {
    if i < |s| && !IsDigit(s[i]) then DigitFrom(s, i + 1) else i
  }

  lemma {:induction false} DigitFromIs(s: string, i: nat, k: nat)
    requires i <= k <= |s|
    requires k < |s| ==> IsDigit(s[k])
    requires forall j :: i <= j < k ==> !IsDigit(s[j])
    ensures DigitFrom(s, i) == k
  {
    var m := DigitFrom(s, i);
    assert m < |s| ==> IsDigit(s[m]);
  }

  /** A '.' and exactly two digits follow position `k`. */
  predicate HasCents(s: string, k: nat) {
    k + 3 <= |s| && s[k] == '.' && IsDigit(s[k + 1]) && IsDigit(s[k + 2])
  }

  /**
   * Where `re.search(r'([0-9]+(?:\.[0-9]{2})?)', s)` matches: the leftmost maximal run of
   * digits, extended by '.' and two digits when those follow.
   */
  function AmountSpan(s: string): (r: Option<(nat, nat)>)
    ensures r.None? <==> forall j :: 0 <= j < |s| ==> !IsDigit(s[j])
    ensures r.Some? ==> r.value.0 < r.value.1 <= |s|
  {
    var i := DigitFrom(s, 0);
    if i == |s| then None
    else
      var k := RunEnd(s, i);
      if HasCents(s, k) then Some((i, k + 3)) else Some((i, k))
  }

  /** The value the matched text reads as: the digit run, plus the two cents digits over 100 when present. */
  function SpanValue(s: string): real
    requires AmountSpan(s).Some?
  {
    var i := DigitFrom(s, 0);
    var k := RunEnd(s, i);
    if HasCents(s, k) then Decimal(DigitsValue(s[i..k]), DigitsValue(s[k + 1..k + 3]), 2)
    else DigitsValue(s[i..k]) as real
  }

  /**
   * `float(m.group(1))` never raises here: the matched text reads as the value of the span, so
   * the `ValueError` branch of `extract_amount_guess` is dead.
   */
  lemma {:induction false} MatchParses(s: string)
    requires AmountSpan(s).Some?
    ensures var span := AmountSpan(s).value; Float(PyStr(s[span.0..span.1])) == Some(SpanValue(s))
  {
    var i := DigitFrom(s, 0);
    var k := RunEnd(s, i);
    var span := AmountSpan(s).value;
    if HasCents(s, k) {
      CentsParse(s, span.0, k, span.1, SpanValue(s));
    } else {
      RunParse(s, span.0, k, span.1, SpanValue(s));
    }
  }

  /** The text of a digit run followed by '.' and two digits reads as the run plus the cents. */
  lemma {:induction false} CentsParse(s: string, i: nat, k: nat, e: nat, v: real)
    requires i < k && e == k + 3 && e <= |s| && AllDigits(s[i..k]) && HasCents(s, k)
    requires v == Decimal(DigitsValue(s[i..k]), DigitsValue(s[k + 1..k + 3]), 2)
    ensures Float(PyStr(s[i..e])) == Some(v)
  {
    var t := s[i..e];
    assert t[..k - i] == s[i..k];
    assert t[k - i + 1..] == s[k + 1..k + 3];
    assert AllDigits(t[k - i + 1..]) by { assert t[k - i + 1..] == [s[k + 1], s[k + 2]]; }
    ParseDigitsDotCents(t, k - i);
  }

  /** The text of a bare digit run reads as its decimal value. */
  lemma {:induction false} RunParse(s: string, i: nat, k: nat, e: nat, v: real)
    requires i < k && e == k && e <= |s| && AllDigits(s[i..k])
    requires v == DigitsValue(s[i..k]) as real
    ensures Float(PyStr(s[i..e])) == Some(v)
  {
    ParseDigitRun(s[i..k]);
  }

  /**
   * `extract_amount_guess(text)`: no amount exactly when the text has no ASCII digit (the empty
   * text included); otherwise the non-negative value of the matched text.
   */
  function ExtractAmountGuess(text: string): (r: Option<real>)
    ensures r.None? <==> forall j :: 0 <= j < |text| ==> !IsDigit(text[j])
    ensures r.Some? ==> r.value >= 0.0
  {
    if text == "" then None
    else
      match AmountSpan(text)
      case None => None
      case Some(_) => Some(SpanValue(text))
  }

  /** The guess is the value of the leftmost digit run, with two decimals when '.' and two digits follow it. */
  lemma {:induction false} AmountIsLeftmostRun(text: string)
    requires exists j :: 0 <= j < |text| && IsDigit(text[j])
    ensures var i := DigitFrom(text, 0);
      var k := RunEnd(text, i);
      && i < k
      && (forall j :: 0 <= j < i ==> !IsDigit(text[j]))
      && AllDigits(text[i..k]) && (k < |text| ==> !IsDigit(text[k]))
      && ExtractAmountGuess(text) == Some(
           if HasCents(text, k) then Decimal(DigitsValue(text[i..k]), DigitsValue(text[k + 1..k + 3]), 2)
           else DigitsValue(text[i..k]) as real)
  {
  }

  /** Digits after the second decimal are not part of the match: "12.345" reads as 12.34. */
  lemma ThreeDecimalsExample()
    ensures ExtractAmountGuess("12.345") == Some(12.34)
  {
    var s := "12.345";
    DigitFromIs(s, 0, 0);
    RunEndIs(s, 0, 2);
    assert s[0..2] == "12" && s[3..5] == "34";
    assert DigitsValue("1") == 1 && DigitsValue("3") == 3;
    assert DigitsValue("12") == 12 && DigitsValue("34") == 34;
    AmountIsLeftmostRun(s);
    DecimalCents(12, 34);
  }

  /** One decimal is not enough for the optional group: "12.3" reads as 12. */
  lemma OneDecimalExample()
    ensures ExtractAmountGuess("12.3") == Some(12.0)
  {
    var s := "12.3";
    DigitFromIs(s, 0, 0);
    RunEndIs(s, 0, 2);
    assert !HasCents(s, 2);
    assert s[0..2] == "12";
    assert DigitsValue("12") == 12;
    AmountIsLeftmostRun(s);
  }

  /**
   * In the pipeline the amount is searched in `subject + "\n" + body`: once the subject has a
   * digit, the body never matters.
   */
  lemma {:induction false} SubjectSearchedFirst(subject: string, body: string)
    requires exists j :: 0 <= j < |subject| && IsDigit(subject[j])
    ensures ExtractAmountGuess(subject + "\n" + body) == ExtractAmountGuess(subject)
  {
    var s := subject + "\n" + body;
    var n := |subject|;
    assert forall j :: 0 <= j < n ==> s[j] == subject[j];
    assert s[n] == '\n';
    var i := DigitFrom(subject, 0);
    DigitFromIs(s, 0, i);
    var k := RunEnd(subject, i);
    assert s[i..k] == subject[i..k];
    RunEndIs(s, i, k);
    CentsAfterSubject(subject, body, k);
    AmountIsLeftmostRun(s);
    AmountIsLeftmostRun(subject);
  }

  /** Cents after a run that ends inside the subject are read from the subject alone. */
  lemma {:induction false} CentsAfterSubject(subject: string, body: string, k: nat)
    requires k <= |subject|
    ensures var s := subject + "\n" + body;
      && HasCents(s, k) == HasCents(subject, k)
      && (HasCents(subject, k) ==> s[k + 1..k + 3] == subject[k + 1..k + 3])
  {
    var s := subject + "\n" + body;
    var n := |subject|;
    if k + 3 <= n {
      assert s[k] == subject[k] && s[k + 1] == subject[k + 1] && s[k + 2] == subject[k + 2];
      assert s[k + 1..k + 3] == subject[k + 1..k + 3];
    } else {
      assert !HasCents(subject, k);
      assert s[n] == '\n';
    }
  }

  // ---------------------------------------------------------------------------
  // looks_like_invoice
  // ---------------------------------------------------------------------------

  /**
   * `looks_like_invoice(subject, body, attachments)`: accepted exactly when "invoice" occurs in
   * the lower-cased subject or the lower-cased body (a match cannot straddle the "\n" that joins
   * them); the reason is "keyword" exactly when accepted. The attachments are not consulted.
   */
  function LooksLikeInvoice(subject: string, body: string, attachments: seq<Attachment>): (r: (bool, string))
    ensures r.0 <==> Contains(Lower(subject), "invoice") || Contains(Lower(body), "invoice")
    ensures r.1 == (if r.0 then "keyword" else "no strong signal")
  {
    var text := Lower(subject + "\n" + body);
    LowerConcat(subject + "\n", body);
    LowerConcat(subject, "\n");
    assert Lower("\n") == "\n";
    ContainsAcross(Lower(subject), '\n', Lower(body), "invoice");
    var hit := Contains(text, "invoice");
    (hit, if hit then "keyword" else "no strong signal")
  }

  /** The keyword gate ignores case: a subject holding "invoice" in any capitalisation is accepted. */
  lemma {:induction false} AnyCaseSubjectAccepted(subject: string, w: string, body: string, attachments: seq<Attachment>)
    requires Contains(subject, w) && Lower(w) == "invoice"
    ensures LooksLikeInvoice(subject, body, attachments) == (true, "keyword")
  {
    ContainsLower(subject, w);
  }

  /** The subject "Re: INVOICE 42" passes the gate even with an empty body and no attachments. */
  lemma ReplySubjectExample()
    ensures LooksLikeInvoice("Re: INVOICE 42", "", []) == (true, "keyword")
  {
    var subject, w := "Re: INVOICE 42", "INVOICE";
    assert subject[4..11] == w;
    assert OccursAt(subject, w, 4);
    var l := Lower(w);
    assert l[0] == 'i' && l[1] == 'n' && l[2] == 'v' && l[3] == 'o' && l[4] == 'i' && l[5] == 'c' && l[6] == 'e';
    assert l == "invoice";
    AnyCaseSubjectAccepted(subject, w, "", []);
  }
}
