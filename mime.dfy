/**
 * Walking a parsed mail message: the body text (`extract_text_body`) and the
 * attachment list (`list_attachments`) of main.py.
 *
 * A message is a tree of parts whose headers and payloads are already decoded:
 * the lower-case media type, the raw Content-Disposition value, the decoded file
 * name ("" when there is none), the decoded text of a text part, the decoded
 * payload bytes (absent for a container part) and the sub-parts.
 */
module Mime {
  import opened Wrappers
  import opened Builtins

  type byte = bv8

  datatype Part = Part(
    contentType: string,
    disposition: string,
    filename: string,
    text: string,
    payload: Option<seq<byte>>,
    children: seq<Part>)
  {
    /** `is_multipart()`: the payload is a list of sub-parts. */
    predicate IsMultipart() {
      children != []
    }

    predicate IsTextPlain() {
      contentType == "text/plain"
    }

    /** `"attachment" in disp.lower()`. */
    predicate IsAttachment() {
      Contains(Lower(disposition), "attachment")
    }

    /** A part whose text goes into the body of a multipart message. */
    predicate IsBodyPart() {
      IsTextPlain() && !IsAttachment()
    }
  }

  // ---------------------------------------------------------------------------
  // walk()
  // ---------------------------------------------------------------------------

  /** `msg.walk()`: the part itself, then the walks of its sub-parts in order (preorder). */
  function Walk(p: Part): (ws: seq<Part>)
    ensures ws != [] && ws[0] == p
    decreases p, 1
  {
    [p] + WalkAll(p.children)
  }

  function WalkAll(ps: seq<Part>): seq<Part>
    decreases ps, 0
  {
    if ps == [] then [] else Walk(ps[0]) + WalkAll(ps[1..])
  }

  /** The walk of a part without sub-parts is that part alone. */
  lemma {:induction false} WalkOfLeaf(p: Part)
    requires !p.IsMultipart()
    ensures Walk(p) == [p]
  {
    assert WalkAll(p.children) == [];
  }

  /** Every child's walk is a contiguous piece of its parent's walk, so each child is visited. */
  lemma {:induction false} WalkVisitsChildren(p: Part)
    ensures forall c :: c in p.children ==> c in Walk(p)
  {
    forall c | c in p.children ensures c in Walk(p) {
      WalkAllVisits(p.children, c);
    }
  }

  /** The walk reaches every descendant: whatever a child's walk visits, its parent's walk visits. */
  lemma {:induction false} WalkVisitsDescendants(p: Part, c: Part, d: Part)
    requires c in p.children && d in Walk(c)
    ensures d in Walk(p)
  {
    WalkAllReaches(p.children, c, d);
  }

  lemma {:induction false} WalkAllReaches(ps: seq<Part>, c: Part, d: Part)
    requires c in ps && d in Walk(c)
    ensures d in WalkAll(ps)
    decreases ps
  {
    if ps[0] != c {
      WalkAllReaches(ps[1..], c, d);
    }
  }

  lemma {:induction false} WalkAllVisits(ps: seq<Part>, c: Part)
    requires c in ps
    ensures c in WalkAll(ps)
    decreases ps
  {
    if ps[0] == c {
      assert Walk(c)[0] == c;
    } else {
      WalkAllVisits(ps[1..], c);
    }
  }

  // ---------------------------------------------------------------------------
  // Which parts go where
  // ---------------------------------------------------------------------------

  /** The parts of `ws` whose text forms the body, in order. */
  function BodyPartsOf(ws: seq<Part>): (bs: seq<Part>)
    ensures forall b :: b in bs ==> b in ws && b.IsBodyPart()
    ensures forall b :: b in ws && b.IsBodyPart() ==> b in bs
  {
    if ws == [] then []
    else
      var init, last := ws[..|ws| - 1], ws[|ws| - 1];
      assert ws == init + [last];
      BodyPartsOf(init) + (if last.IsBodyPart() then [last] else [])
  }

  /** The parts of `ws` listed as attachments, in order. */
  function AttachmentPartsOf(ws: seq<Part>): (as_: seq<Part>)
    ensures forall a :: a in as_ ==> a in ws && a.IsAttachment()
    ensures forall a :: a in ws && a.IsAttachment() ==> a in as_
  {
    if ws == [] then []
    else
      var init, last := ws[..|ws| - 1], ws[|ws| - 1];
      assert ws == init + [last];
      AttachmentPartsOf(init) + (if last.IsAttachment() then [last] else [])
  }

  /**
   * The body filter works part by part, keeping walk order and repetitions: the body parts of
   * two stretches of a walk are those of the first, then those of the second.
   */
  lemma {:induction false} BodyPartsAppend(a: seq<Part>, b: seq<Part>)
    ensures BodyPartsOf(a + b) == BodyPartsOf(a) + BodyPartsOf(b)
    decreases |b|
  {
    if b == [] {
      assert a + b == a;
    } else {
      var init, last := b[..|b| - 1], b[|b| - 1];
      BodyPartsAppend(a, init);
      assert (a + b)[..|a + b| - 1] == a + init;
      assert (a + b)[|a + b| - 1] == last;
    }
  }

  /** A single part is a body part on its own, or contributes nothing. */
  lemma {:induction false} BodyPartsOfOne(p: Part)
    ensures BodyPartsOf([p]) == (if p.IsBodyPart() then [p] else [])
  {
    assert [p][..0] == [];
  }

  /** The attachment filter likewise keeps walk order and repetitions. */
  lemma {:induction false} AttachmentPartsAppend(a: seq<Part>, b: seq<Part>)
    ensures AttachmentPartsOf(a + b) == AttachmentPartsOf(a) + AttachmentPartsOf(b)
    decreases |b|
  {
    if b == [] {
      assert a + b == a;
    } else {
      var init, last := b[..|b| - 1], b[|b| - 1];
      AttachmentPartsAppend(a, init);
      assert (a + b)[..|a + b| - 1] == a + init;
      assert (a + b)[|a + b| - 1] == last;
    }
  }

  /** A single part is listed on its own when its disposition says "attachment", whatever its type. */
  lemma {:induction false} AttachmentPartsOfOne(p: Part)
    ensures AttachmentPartsOf([p]) == (if p.IsAttachment() then [p] else [])
  {
    assert [p][..0] == [];
  }

  /**
   * Every text/plain part of a walk lands in exactly one place: in the body exactly when its
   * disposition does not say "attachment", in the attachment list exactly when it does.
   */
  lemma {:induction false} BodyAttachmentPartition(ws: seq<Part>)
    ensures forall p :: p in ws && p.IsTextPlain() ==>
      (p in BodyPartsOf(ws) <==> !p.IsAttachment()) && (p in AttachmentPartsOf(ws) <==> p.IsAttachment())
    ensures forall p :: !(p in BodyPartsOf(ws) && p in AttachmentPartsOf(ws))
  {
    if ws != [] {
      var init, last := ws[..|ws| - 1], ws[|ws| - 1];
      BodyAttachmentPartition(init);
      assert ws == init + [last];
      forall p | p in ws && p.IsTextPlain()
        ensures (p in BodyPartsOf(ws) <==> !p.IsAttachment()) && (p in AttachmentPartsOf(ws) <==> p.IsAttachment())
      {
        if p != last {
          assert p in init;
        }
      }
    }
  }

  /** The decoded text of each part, in order. */
  function Texts(ps: seq<Part>): (ts: seq<string>)
    ensures |ts| == |ps|
    ensures forall i :: 0 <= i < |ps| ==> ts[i] == ps[i].text
  {
    if ps == [] then [] else Texts(ps[..|ps| - 1]) + [ps[|ps| - 1].text]
  }

  /**
   * The body text of a message. A multipart message joins the texts of its body parts, in walk
   * order, with newlines and strips the result; a single text/plain part is its own text,
   * unstripped and whatever its disposition; any other single part has no body.
   */
  function BodyText(msg: Part): (b: string)
    ensures msg.IsMultipart() ==> b == [] || (!IsSpace(b[0]) && !IsSpace(b[|b| - 1]))
    ensures msg.IsMultipart() && BodyPartsOf(Walk(msg)) == [] ==> b == ""
    ensures !msg.IsMultipart() && !msg.IsTextPlain() ==> b == ""
  {
    if msg.IsMultipart() then Strip(JoinWith(Texts(BodyPartsOf(Walk(msg))), "\n"))
    else if msg.IsTextPlain() then msg.text
    else ""
  }

  /** The multipart body carries no leading or trailing whitespace; a single part keeps its text as is. */
  lemma {:induction false} BodyTextShape(msg: Part)
    ensures var b := BodyText(msg);
      msg.IsMultipart() ==> b == [] || (!IsSpace(b[0]) && !IsSpace(b[|b| - 1]))
    ensures !msg.IsMultipart() && msg.IsTextPlain() ==> BodyText(msg) == msg.text
  {
    if msg.IsMultipart() {
      StripShape(JoinWith(Texts(BodyPartsOf(Walk(msg))), "\n"));
    }
  }

  /** The loop of `extract_text_body`: the texts of the body parts of a walk, collected in order. */
  method BodyTexts(ws: seq<Part>) returns (parts: seq<string>)
    ensures parts == Texts(BodyPartsOf(ws))
  {
    parts := [];
    for i := 0 to |ws|
      invariant parts == Texts(BodyPartsOf(ws[..i]))
    {
      var part := ws[i];
      assert ws[..i + 1] == ws[..i] + [part];
      BodyPartsAppend(ws[..i], [part]);
      BodyPartsOfOne(part);
      if part.IsBodyPart() {
        TextsSnoc(BodyPartsOf(ws[..i]), part);
        parts := parts + [part.text];
      } else {
        assert BodyPartsOf(ws[..i + 1]) == BodyPartsOf(ws[..i]) + [];
      }
    }
    assert ws[..|ws|] == ws;
  }

  lemma {:induction false} TextsSnoc(ps: seq<Part>, p: Part)
    ensures Texts(ps + [p]) == Texts(ps) + [p.text]
  {
    assert (ps + [p])[..|ps|] == ps;
  }

  /** `extract_text_body(msg)`, collecting the body parts while walking the message. */
  method ExtractTextBody(msg: Part) returns (body: string)
    ensures body == BodyText(msg)
    ensures msg.IsMultipart() ==> body == Strip(JoinWith(Texts(BodyPartsOf(Walk(msg))), "\n"))
    ensures !msg.IsMultipart() ==> body == (if msg.IsTextPlain() then msg.text else "")
  {
    if msg.IsMultipart() {
      var parts := BodyTexts(Walk(msg));
      body := Strip(JoinWith(parts, "\n"));
    } else if msg.contentType == "text/plain" {
      body := msg.text;
    } else {
      body := "";
    }
  }

  // ---------------------------------------------------------------------------
  // Attachments
  // ---------------------------------------------------------------------------

  /** The tuple `(fname, size, is_pdf, data)` that `list_attachments` yields for one part. */
  datatype Attachment = Attachment(name: string, size: nat, isPdf: bool, data: Option<seq<byte>>)

  /** The attachment entry of one part; `save` says whether the payload is kept in the entry. */
  function AttachmentOf(p: Part, save: bool): (a: Attachment)
    ensures a.name != ""
    ensures a.name == "unnamed" <==> p.filename == "" || p.filename == "unnamed"
    ensures p.filename != "" ==> a.name == p.filename
    ensures a.size == 0 <==> p.payload == None || p.payload == Some([])
    ensures p.payload.Some? ==> a.size == |p.payload.value|
    ensures a.isPdf <==> p.contentType == "application/pdf" || EndsWith(Lower(a.name), ".pdf")
    ensures a.data == (if save then p.payload else None)
  {
    var name := if p.filename != "" then p.filename else "unnamed";
    var size := if p.payload.Some? then |p.payload.value| else 0;
    Attachment(name, size, p.contentType == "application/pdf" || EndsWith(Lower(name), ".pdf"),
               if save then p.payload else None)
  }

  function AttachmentsOfParts(ps: seq<Part>, save: bool): (as_: seq<Attachment>)
    ensures |as_| == |ps|
    ensures forall i :: 0 <= i < |ps| ==> as_[i] == AttachmentOf(ps[i], save)
  {
    if ps == [] then [] else AttachmentsOfParts(ps[..|ps| - 1], save) + [AttachmentOf(ps[|ps| - 1], save)]
  }

  /** The attachment list of a message: one entry per attachment-disposition part, in walk order. */
  function Attachments(msg: Part, save: bool): (as_: seq<Attachment>)
    ensures forall a :: a in as_ ==> exists p :: p in Walk(msg) && p.IsAttachment() && a == AttachmentOf(p, save)
    ensures !msg.IsMultipart() ==> as_ == (if msg.IsAttachment() then [AttachmentOf(msg, save)] else [])
  {
    AttachmentsFromParts(Walk(msg), save);
    LeafAttachments(msg, save);
    AttachmentsOfParts(AttachmentPartsOf(Walk(msg)), save)
  }

  /** Each entry built from the filtered walk comes from one of its attachment parts. */
  lemma {:induction false} AttachmentsFromParts(ws: seq<Part>, save: bool)
    ensures var as_ := AttachmentsOfParts(AttachmentPartsOf(ws), save);
      forall a :: a in as_ ==> exists p :: p in ws && p.IsAttachment() && a == AttachmentOf(p, save)
  {
    var ps := AttachmentPartsOf(ws);
    var as_ := AttachmentsOfParts(ps, save);
    forall a | a in as_
      ensures exists p :: p in ws && p.IsAttachment() && a == AttachmentOf(p, save)
    {
      var i :| 0 <= i < |as_| && as_[i] == a;
      assert ps[i] in ps;
    }
  }

  /** A message that is not multipart lists itself, when it is an attachment, and nothing else. */
  lemma {:induction false} LeafAttachments(msg: Part, save: bool)
    ensures !msg.IsMultipart() ==>
      AttachmentsOfParts(AttachmentPartsOf(Walk(msg)), save)
        == (if msg.IsAttachment() then [AttachmentOf(msg, save)] else [])
  {
    if !msg.IsMultipart() {
      WalkOfLeaf(msg);
      AttachmentPartsOfOne(msg);
    }
  }

  /**
   * Every part of the walk whose disposition says "attachment", of any type (a PDF included),
   * has its entry in the attachment list.
   */
  lemma {:induction false} AttachmentListed(msg: Part, save: bool, p: Part)
    requires p in Walk(msg) && p.IsAttachment()
    ensures AttachmentOf(p, save) in Attachments(msg, save)
  {
    var ps := AttachmentPartsOf(Walk(msg));
    var i :| 0 <= i < |ps| && ps[i] == p;
    assert Attachments(msg, save)[i] == AttachmentOf(p, save);
  }

  /** The loop of `list_attachments`: one entry per attachment part of a walk, collected in order. */
  method AttachmentEntries(ws: seq<Part>, save: bool) returns (out: seq<Attachment>)
    ensures out == AttachmentsOfParts(AttachmentPartsOf(ws), save)
  {
    out := [];
    for i := 0 to |ws|
      invariant out == AttachmentsOfParts(AttachmentPartsOf(ws[..i]), save)
    {
      var part := ws[i];
      assert ws[..i + 1] == ws[..i] + [part];
      AttachmentPartsAppend(ws[..i], [part]);
      AttachmentPartsOfOne(part);
      if part.IsAttachment() {
        AttachmentsOfPartsSnoc(AttachmentPartsOf(ws[..i]), part, save);
        out := out + [AttachmentOf(part, save)];
      } else {
        assert AttachmentPartsOf(ws[..i + 1]) == AttachmentPartsOf(ws[..i]) + [];
      }
    }
    assert ws[..|ws|] == ws;
  }

  lemma {:induction false} AttachmentsOfPartsSnoc(ps: seq<Part>, p: Part, save: bool)
    ensures AttachmentsOfParts(ps + [p], save) == AttachmentsOfParts(ps, save) + [AttachmentOf(p, save)]
  {
    assert (ps + [p])[..|ps|] == ps;
  }

  /** `list_attachments(msg, save)`, without the copy written to disk when `save` is set. */
  method ListAttachments(msg: Part, save: bool) returns (out: seq<Attachment>)
    ensures out == Attachments(msg, save)
    ensures |out| == |AttachmentPartsOf(Walk(msg))|
    ensures forall i :: 0 <= i < |out| ==> out[i] == AttachmentOf(AttachmentPartsOf(Walk(msg))[i], save)
  {
    out := AttachmentEntries(Walk(msg), save);
  }
}
