# Email invoice triage, modelled in Dafny

The system reads a mailbox and saves a row in a spreadsheet ledger for every message that looks
like an invoice. Each saved message also gets a fraud-risk score from a text classifier. This project
models three parts of it:

- the batch run of `main.py`. It cuts the search result to the most recent ids and visits them
  newest first, sending a keep-alive probe every 50 messages. For each message it extracts the
  plain-text body and the attachment list and applies the keyword gate. It derives the sender
  and reply-to domains, the attachment types and the amount guess, calls the scorer, and appends
  a 14-column row to the "Invoices" sheet of the ledger file.
- the scorer of `ai_fraud_ml.py`. It builds the normalised feature text (amount bucket, tagged
  domain and attachment lines), maps the probability to a 0..100 score, and picks at most five
  explaining tokens: the positive-weight ones among the five heaviest present features, ordered
  by a stable sort.
- the training script's text encoding in `train_model.py`, together with how it relates to the
  scorer's encoding of the same message.

The Dafny modules follow that structure:

| module | file | models |
|---|---|---|
| `Wrappers` | wrappers.dfy | `Option` |
| `Builtins` | builtins.dfy | the Python built-ins the code relies on: `str.isspace`, ASCII `lower`, `in`, `join`, `split`, `strip`, `re.sub(r"\s+", " ", …)`, string order and `sorted(set(…))`, `float()`, `round()` |
| `Mime` | mime.dfy | a decoded message as a tree of parts, `walk()`, `extract_text_body`, `list_attachments` |
| `Fields` | fields.dfy | `domain_from_header`, `attachment_types_from_list` (with POSIX `splitext`), `extract_amount_guess`, `looks_like_invoice` |
| `FraudModel` | fraud_model.dfy | `_amt_token`, `_combine`, `predict_email_risk`; the in-place sort of the explanation is an array method |
| `Training` | training.dfy | `amt_token`, `combine` |
| `Ledger` | ledger.dfy | `ensure_workbook`, `append_invoice_row`; the ledger file is a class whose fields the methods update |
| `Pipeline` | pipeline.dfy | `maybe_keepalive`, `process_all` as a loop method proved against the function `Run` |

The loop in `ProcessAll` is proved against a step function (`Step`) folded over the visited
entries (`Run`). The lemmas about `Run` state the following:

- A run that did not stop has appended exactly the accepted fetched messages, in visiting order,
  one row each, and counted them.
- A stopped run stays stopped.
- In the model, a run stops only on a due probe that raises, or when a ledger file exists but has
  no "Invoices" sheet. In the second case nothing has been saved. The code has further ways to
  end a batch that the model leaves out (see "Left out").

### Behaviour of the code worth knowing

- The amount is the first digit run of `subject + "\n" + body`, so the subject is searched first.
  For the subject "Invoice #1234 due" and the body "Please pay $250.00", the amount is 1234.0 and
  the bucket is HIGH (`Fields.SubjectSearchedFirst`, `FraudModel.AmtToken`).
- The ledger append is outside every `try`. A missing "Invoices" sheet in an existing file
  raises, the exception leaves `process_all`, and the batch ends (`Pipeline.Stop.LedgerFailed`,
  `Pipeline.RunStops`).
- The two risk columns of the header are "ML Risk Score" and "ML Top Tokens" (`Ledger.Header`).
- The keep-alive probe swallows only `IMAP4.abort`. Any other exception from the probe ends the
  batch (`Pipeline.ProbeReply.Broken`).

## Model

| member | source | states |
|---|---|---|
| Builtins.Lower | main.py:24 | lower-casing keeps the length and maps each character on its own: ASCII capitals to small letters, everything else unchanged |
| Builtins.LowerNormalize | ai_fraud_ml.py:22-27 | lower-casing commutes with the whitespace normalisation |
| Builtins.LowerJoin | ai_fraud_ml.py:20-24 | lower-casing a join with a lower-case separator lower-cases each part |
| Builtins.Split | main.py:24 | `split("@")` gives at least one piece, two or more exactly when "@" occurs, no piece contains "@", and joining the pieces with "@" gives the input back |
| Builtins.SplitHead | main.py:24 | the first piece of a split runs up to the first separator |
| Builtins.LastIndexOf | main.py:30 | the index of the last occurrence, or -1 when there is none; no occurrence lies after it |
| Builtins.LastIndexOfIs | main.py:30 | an index holding the character with none of it after (or -1 when it occurs nowhere) is the last occurrence |
| Builtins.LStripChar | main.py:32 | `lstrip(".")` removes exactly the leading run of ".": the result is a suffix of the input that does not start with ".", and every character removed is a "." |
| Builtins.StripShape | main.py:30 | `strip()` leaves no whitespace at either end |
| Builtins.Strip | main.py:30 | `strip()` never lengthens, leaves no whitespace at either end, and keeps text that has none at its ends, so stripping twice is stripping once |
| Builtins.JoinWith | main.py:33 | `sep.join(parts)` is "" for no parts and otherwise starts with the first part (JoinCons and JoinAppend give it part by part) |
| Builtins.Collapse | ai_fraud_ml.py:27 | `re.sub(r"\s+", " ", t)` never lengthens the text (CollapseNoLead gives the result exactly) |
| Builtins.CollapseKeeps | ai_fraud_ml.py:27 | text without whitespace is left as it is by the substitution |
| Builtins.ContainsAcross | main.py:103-104 | "invoice" occurs in `subject + "\n" + body` exactly when it occurs in one of the two, because it has no "\n" to straddle the join |
| Builtins.ContainsLower | main.py:103-104 | an occurrence survives lower-casing of both texts |
| Builtins.NormalizeShape | ai_fraud_ml.py:27 | `re.sub(r"\s+", " ", t).strip()` is trimmed and its only whitespace is single spaces |
| Builtins.NormalizeIsJoinedTokens | ai_fraud_ml.py:27 | the normal form is the whitespace-separated words of the text joined by single spaces |
| Builtins.NormalizeIdempotent | ai_fraud_ml.py:27 | normalising twice is normalising once |
| Builtins.Normalize | ai_fraud_ml.py:27 | the normal form is never longer than the text, is trimmed, and is the text itself when it has no whitespace (NormalizeIsJoinedTokens and NormalizeShape give it exactly) |
| Builtins.TokensOfJoinedWords | ai_fraud_ml.py:27 | splitting a single-space join of words gives the words back |
| Builtins.TokensOfJoin | ai_fraud_ml.py:20-27 | the words of a newline join are the words of the parts, in order |
| Builtins.TokensAcross | ai_fraud_ml.py:20-27 | a whitespace character separates words: no word straddles it |
| Builtins.Tokens | ai_fraud_ml.py:27 | the words of a text are non-empty and free of whitespace |
| Builtins.LessFacts | main.py:33 | the code-point order of strings used by `sorted` is irreflexive, total and transitive |
| Builtins.InsertSorted | main.py:33 | inserting into a strictly increasing list keeps it strictly increasing and adds exactly the new element |
| Builtins.SortedSet | main.py:33 | `sorted(set(xs))` is strictly increasing and holds exactly the elements of `xs` |
| Builtins.SortedListUnique | main.py:33 | two strictly increasing lists with the same elements are equal |
| Builtins.RunEnd | main.py:39 | the end of a maximal run of digits |
| Builtins.DecimalCents | main.py:42 | a number with two decimal places is its whole part plus hundredths |
| Builtins.ParseDigitRun | main.py:42 | `float()` of a run of digits is its decimal value |
| Builtins.ParseUnsigned | main.py:42 | an unsigned decimal is accepted only when it has a digit |
| Builtins.ParseFloat | main.py:42 | `float(text)` raises on text whose stripped form has no digit, such as "", "-" or "." (ParseDigitRun and ParseDigitsDotCents give the value of accepted text) |
| Builtins.Float | train_model.py:12-13 | `float(None)` raises, `float(x)` of a number is `x`, and a string is accepted only when its stripped text has a digit |
| Builtins.ParseDigitsDotCents | main.py:42 | `float()` of digits, ".", and two digits is the whole part plus the cents |
| Builtins.FloatOfEmptyFails | train_model.py:26 | `float("")` raises, so a missing amount in a training row is UNK |
| Builtins.RoundHalfEven | ai_fraud_ml.py:33 | `round(x)` is within one half of `x`, and an exact tie goes to the even neighbour |
| Mime.Walk | main.py:58 | `walk()` starts at the message itself |
| Mime.WalkOfLeaf | main.py:56-74 | a message without sub-parts walks only itself |
| Mime.WalkVisitsChildren | main.py:58 | every sub-part is visited by the walk |
| Mime.WalkVisitsDescendants | main.py:58 | whatever a sub-part's walk visits, the parent's walk visits too, so nested parts at any depth are reached |
| Mime.BodyPartsOf | main.py:58-61 | a visited part is a body part exactly when it is text/plain and its disposition does not say "attachment" |
| Mime.BodyPartsAppend | main.py:58-63 | the body parts of two stretches of a walk are those of the first followed by those of the second, so walk order and repetitions are kept |
| Mime.BodyPartsOfOne | main.py:59-61 | one part contributes itself when it is a body part, and nothing otherwise |
| Mime.AttachmentPartsOf | main.py:78-80 | a visited part is listed exactly when its disposition says "attachment", whatever its type |
| Mime.AttachmentPartsAppend | main.py:78-80 | the listed parts of two stretches of a walk are those of the first followed by those of the second, so walk order and repetitions are kept |
| Mime.AttachmentPartsOfOne | main.py:79-80 | one part is listed alone when its disposition says "attachment", of any type, and contributes nothing otherwise |
| Mime.AttachmentListed | main.py:78-93 | every attachment-disposition part of the walk, a PDF included, has its entry in the list |
| Mime.Attachments | main.py:76-94 | every entry of the list comes from an attachment-disposition part of the walk (AttachmentListed is the converse); a message that is not multipart lists itself when it is an attachment, and nothing otherwise |
| Mime.AttachmentsFromParts | main.py:78-93 | every entry built from the filtered walk comes from one of its attachment-disposition parts |
| Mime.LeafAttachments | main.py:78-80 | the walk of a message that is not multipart is the message alone, so it is listed exactly when it is an attachment |
| Mime.BodyAttachmentPartition | main.py:58-80 | a text/plain part goes to the body exactly when it is not an attachment, to the list exactly when it is, and never to both |
| Mime.Texts | main.py:63 | the text of each body part, in order |
| Mime.BodyTextShape | main.py:67-71 | a multipart body is stripped; a single text/plain part is its own text, unstripped |
| Mime.BodyText | main.py:55-74 | a multipart body is trimmed, and empty when the walk has no body part; a single part that is not text/plain gives "" |
| Mime.BodyTexts | main.py:58-63 | the loop collects the texts of exactly the body parts of the walk, in walk order (order and completeness by `BodyPartsOf`, `BodyPartsAppend` and `BodyPartsOfOne`) |
| Mime.ExtractTextBody | main.py:55-74 | the body is the newline join of the body parts' texts, in walk order, stripped, for a multipart message; otherwise the part's own text when it is text/plain, else "" |
| Mime.AttachmentOf | main.py:81-93 | the name is never empty ("unnamed" when the file name is empty or "unnamed"); the size is the payload's length when there is one, and 0 exactly when there is no payload or it is empty; PDF exactly when the type is application/pdf or the lower-cased name ends with ".pdf"; the payload is kept only when saving |
| Mime.AttachmentsOfParts | main.py:78-93 | one entry per attachment part, in order |
| Mime.AttachmentEntries | main.py:78-93 | the loop builds one entry per listed part of the walk, in walk order |
| Mime.ListAttachments | main.py:76-94 | the list holds one entry per attachment-disposition part of the walk, of any type, in walk order, each as described for one part (completeness by `AttachmentPartsOf` and `AttachmentListed`, order by `AttachmentPartsAppend`) |
| Fields.DomainFromHeader | main.py:21-24 | the domain is lower case and has no "@"; it is "" when the parsed address is empty or has no "@" |
| Fields.DomainBetweenAts | main.py:24 | with an "@" in the address, the domain is the lower-cased text between the first "@" and the next "@" or the end |
| Fields.DomainOfAddress | main.py:21-24 | for an address `local@domain` the result is the lower-cased domain |
| Fields.SplitExt | main.py:30 | `splitext` splits the path into two pieces that concatenate back to it; the extension is non-empty exactly when the last "." comes after the last "/" and the last component has a non-dot character before it, and it is then the text from that last "."; a non-empty extension starts with its only "." and has no "/" |
| Fields.ExtensionOf | main.py:30-32 | a name contributes an extension exactly when `splitext` of the stripped name finds one, and it is then that extension without its dot, lower-cased; it is lower case and has no "." or "/" |
| Fields.PlainNameExtension | main.py:30-32 | a stripped name `base.ext`, with no "." or "/" in `ext` and a non-dot character in the last component of `base`, contributes `ext` lower-cased |
| Fields.JoinedLastDot | main.py:30 | in `base.ext` with no "." in `ext`, the last "." is the joining one |
| Fields.JoinedLastSlash | main.py:30 | in `base.ext` with no "/" in `ext`, the last "/" is the last "/" of `base` |
| Fields.PaddedPdfStrip | main.py:30 | stripping " a.PDF " leaves "a.PDF" |
| Fields.PaddedPdfExample | main.py:30-32 | the name " a.PDF " contributes "pdf" |
| Fields.DotFileExample | main.py:30-32 | the name ".bashrc" contributes nothing, since a leading dot does not start an extension |
| Fields.Extensions | main.py:28-32 | an extension is in `exts` exactly when some name contributes it |
| Fields.AttachmentTypesFromList | main.py:26-33 | the result is the distinct extensions, sorted and comma-joined, and "" for no names |
| Fields.AttachmentTypesOrderFree | main.py:33 | the result depends only on which extensions occur, not on the order or repetition of names |
| Fields.AttachmentTypes | main.py:26-33 | names that have no extension give "" (AttachmentTypesFromList and AttachmentTypesOrderFree state the rest) |
| Fields.NoDotNoExtension | main.py:30-31 | a name without "." contributes nothing |
| Fields.TrailingDotQuirk | main.py:30-32 | "file." contributes the empty extension |
| Fields.AmountSpan | main.py:39 | the regular expression finds no match exactly when the text has no digit; a match is non-empty |
| Fields.MatchParses | main.py:40-44 | `float()` of the matched text never raises, so the `ValueError` branch cannot be taken |
| Fields.ExtractAmountGuess | main.py:35-45 | no amount exactly when the text has no digit (the empty text included); otherwise a non-negative value |
| Fields.AmountIsLeftmostRun | main.py:39-42 | the amount is the value of the leftmost maximal digit run, plus the cents when "." and exactly two digits follow |
| Fields.ThreeDecimalsExample | main.py:39 | "12.345" reads as 12.34 |
| Fields.OneDecimalExample | main.py:39 | "12.3" reads as 12 |
| Fields.SubjectSearchedFirst | main.py:213 | once the subject has a digit, the body does not affect the amount |
| Fields.LooksLikeInvoice | main.py:102-107 | accepted exactly when "invoice" occurs in the lower-cased subject or body; the reason is "keyword" exactly when accepted, else "no strong signal"; attachments play no part |
| Fields.AnyCaseSubjectAccepted | main.py:102-107 | a subject holding "invoice" in any capitalisation is accepted, with the reason "keyword", whatever the body and attachments |
| Fields.ReplySubjectExample | main.py:102-107 | the subject "Re: INVOICE 42" is accepted with an empty body and no attachments |
| FraudModel.AmtToken | ai_fraud_ml.py:10-17 | UNK exactly when `float()` raises; LOW below 100; MED from 100 to below 1000; HIGH from 1000 |
| FraudModel.AmtTokenIsWord | ai_fraud_ml.py:25-27 | the bucket is a single word of the feature text |
| FraudModel.AmtTokenMonotone | ai_fraud_ml.py:13-15 | a larger amount never gets a lower bucket |
| FraudModel.AmtTokenEdges | ai_fraud_ml.py:10-17 | None and "" are UNK; negative amounts are LOW |
| FraudModel.CombineLines | ai_fraud_ml.py:20-26 | six lines, in this order: the subject, the body, the lines starting "FROM:", "REPLY:" and "ATTACH:", and last the amount bucket |
| FraudModel.Combine | ai_fraud_ml.py:19-27 | the feature text is trimmed, and its only whitespace is single spaces |
| FraudModel.CombineTokens | ai_fraud_ml.py:19-27 | the words of the feature text are those of the subject and body (case kept), the lower-cased tagged FROM, REPLY and ATTACH lines, and last the amount bucket; the text is these words joined by single spaces |
| FraudModel.TaggedFirstWord | ai_fraud_ml.py:22-24 | a tagged line's first word starts with its tag |
| FraudModel.CombineEndsWithAmount | ai_fraud_ml.py:25-27 | the feature text ends with the amount bucket |
| FraudModel.CombineTagOrder | ai_fraud_ml.py:20-27 | FROM, REPLY and ATTACH words come in that order, after the subject and body words and before the bucket |
| FraudModel.CombineIsNormalForm | ai_fraud_ml.py:27 | normalising a feature text again changes nothing |
| FraudModel.RiskScore | ai_fraud_ml.py:33 | the score is within one half of 100 × probability, and lies in 0..100 |
| FraudModel.RiskScoreMonotone | ai_fraud_ml.py:33 | a higher probability never gives a lower score |
| FraudModel.RoundMonotone | ai_fraud_ml.py:33 | `round` is monotone |
| FraudModel.InsertDesc | ai_fraud_ml.py:41 | inserting one pair into a sorted list adds one element |
| FraudModel.InsertDescPerm | ai_fraud_ml.py:41 | inserting adds exactly that pair to the multiset |
| FraudModel.InsertDescDescending | ai_fraud_ml.py:41 | inserting keeps the list ordered by decreasing weight |
| FraudModel.InsertDescAt | ai_fraud_ml.py:41 | the pair lands after every pair of at least its weight, before the lighter ones |
| FraudModel.InsertDescStable | ai_fraud_ml.py:41 | the inserted pair goes after every earlier pair of the same weight |
| FraudModel.SortDesc | ai_fraud_ml.py:41 | the sort keeps the length |
| FraudModel.SortDescSorted | ai_fraud_ml.py:41 | the sorted list is ordered by decreasing weight and is a permutation of its input |
| FraudModel.SortDescStable | ai_fraud_ml.py:41 | pairs of equal weight keep their original order (the sort is stable) |
| FraudModel.SortDescSnoc | ai_fraud_ml.py:41 | sorting one more pair inserts it into the sorted earlier pairs |
| FraudModel.SortByWeightDesc | ai_fraud_ml.py:41 | the in-place sort leaves the array holding the stable descending sort of its old contents |
| FraudModel.InsertLast | ai_fraud_ml.py:41 | one pass inserts the next element into the sorted prefix and leaves the rest of the array alone |
| FraudModel.ShiftSmaller | ai_fraud_ml.py:41 | the lighter pairs of the prefix move one place right, leaving a hole after the last pair of at least the new weight |
| FraudModel.Positive | ai_fraud_ml.py:42 | the filter `w > 0` keeps only positive weights and never grows the list |
| FraudModel.NonPositive | ai_fraud_ml.py:42 | what the filter drops has weight zero or below |
| FraudModel.PositiveSplit | ai_fraud_ml.py:42 | the kept and the dropped pairs together are the input, as a multiset |
| FraudModel.PositiveDescending | ai_fraud_ml.py:42 | the filter keeps the order by weight |
| FraudModel.PositiveAll | ai_fraud_ml.py:42 | a list of positive weights passes the filter whole |
| FraudModel.PositiveKeeps | ai_fraud_ml.py:42 | every positive pair passes the filter |
| FraudModel.FirstFive | ai_fraud_ml.py:42 | `toks[:5]` is the prefix of exactly min(5, len(toks)) elements |
| FraudModel.TopPairs | ai_fraud_ml.py:42 | at most five pairs are chosen |
| FraudModel.Names | ai_fraud_ml.py:42 | the names of the chosen pairs, in order |
| FraudModel.TopPairsShape | ai_fraud_ml.py:40-42 | the chosen pairs are at most five, each of positive weight, by decreasing weight, and drawn from the present features (as a multiset) |
| FraudModel.TopPairsMaximal | ai_fraud_ml.py:41-42 | a positive present feature that was left out weighs no more than any chosen one |
| FraudModel.TopPairsAllWhenFew | ai_fraud_ml.py:41-42 | with fewer than five chosen, every positive present feature was chosen |
| FraudModel.PresentPairs | ai_fraud_ml.py:40 | the pairs are built exactly when every index is in range, one pair per index, in order |
| FraudModel.Explain | ai_fraud_ml.py:36-44 | the explanation is the names of the top pairs of the sorted present features, or empty when any lookup fails; at most five tokens |
| FraudModel.Explanation | ai_fraud_ml.py:36-44 | at most five tokens, and none when the feature names or the weights cannot be had (the `except` branch) |
| FraudModel.PredictEmailRisk | ai_fraud_ml.py:29-46 | no result exactly when the probability cannot be had; otherwise the score of the encoded text in 0..100 and at most five explaining tokens |
| FraudModel.Prediction | ai_fraud_ml.py:29-46 | no result exactly when the probability of the encoded text cannot be had; otherwise a score in 0..100 and at most five tokens |
| Training.AmtTokenAgrees | train_model.py:11-18 | training and scoring put every amount in the same one of the four buckets |
| Training.AmtToken | train_model.py:11-18 | UNK exactly when `float()` rejects the value; LOW, MED and HIGH exactly below 100, from 100 to below 1000, and from 1000 on (AmtTokenAgrees ties it to the scoring side) |
| Training.AmtTokenAsWritten | train_model.py:11-18 | the training bucket as written: UNK exactly when `float()` raises; HIGH for 1000 and above, and also for NaN, which passes `float()` and fails both comparisons |
| Training.AsWrittenOnNumbers | train_model.py:11-18 | on numbers, the bucket as written equals the model's bucket |
| Training.NaNAmountIsHigh | train_model.py:11-36 | an amount read as NaN goes to HIGH in training, while scoring puts a missing amount in UNK |
| Training.MissingAmountAgrees | train_model.py:26 | in the model a row without an amount is UNK, the same bucket scoring gives a missing amount |
| Training.AmountOf | train_model.py:26 | a missing amount reads as "" |
| Training.Lines | train_model.py:27-28 | six lines, in the scoring side's order: the subject, the body, the lines starting "FROM:", "REPLY:" and "ATTACH:", and last the amount bucket |
| Training.Combine | train_model.py:20-29 | the training text is trimmed, and its only whitespace is single spaces |
| Training.CombineTokens | train_model.py:20-29 | the words of a training text are those of the subject and body, the tagged lines with their case kept, and the bucket; the text is these words joined by single spaces |
| Training.AgreesWhenLower | train_model.py:20-29 | when the domains and types of a row are lower case, training and scoring build the same text |
| Training.AgreesUpToCase | train_model.py:20-29 | lower-cased, the training and the scoring texts of a row are always equal |
| Training.JoinSameUpToCase | train_model.py:27-28 | joining lines that agree up to case gives texts that agree up to case |
| Training.NormalizeSameUpToCase | train_model.py:29 | normalising keeps texts that agree up to case in agreement |
| Training.CaseDiverges | train_model.py:23-27 | a sender domain with a capital letter makes the training text differ from the scoring text |
| Training.FromWordsDiffer | train_model.py:27 | a tagged domain with a capital letter is one word, and differs from its lower-cased form |
| Training.EmptyRow | train_model.py:20-29 | an empty row encodes to "FROM: REPLY: ATTACH: AMOUNT_BIN:UNK" |
| Training.EmptyRowWords | train_model.py:21-28 | each line of an empty row contributes only its tag, and the amount is UNK |
| Ledger.Header | main.py:118-122 | the header has 14 text cells |
| Ledger.RowOf | main.py:131-135 | a data row has one cell per header column |
| Ledger.RowUnderHeader | main.py:118-135 | the columns line up with the header: the saved time under "SavedAt"; a boolean under "HasPDF"; the amount or "" under "AmountGuess"; the score or "" under "ML Risk Score"; the tokens under "ML Top Tokens" |
| Ledger.RowIsNotHeader | main.py:118-135 | a data row never equals the header |
| Ledger.OpenedShape | main.py:112-124 | opening leaves an existing file as it is; a new file has only the "Invoices" sheet, holding the header; opening twice is opening once |
| Ledger.Opened | main.py:112-124 | an existing file is kept as it is; a missing one becomes a single "Invoices" sheet holding the header (OpenedShape adds that opening twice is opening once) |
| Ledger.AppendedShape | main.py:126-136 | appending fails exactly when an existing file has no "Invoices" sheet; otherwise the row goes at the end of that sheet, earlier rows stay, and no other sheet changes |
| Ledger.Appended | main.py:126-136 | fails exactly when an existing file lacks the "Invoices" sheet; otherwise the sheets are the same and the row lands at the end of the opened sheet (AppendedShape adds that no other sheet changes) |
| Ledger.FirstAppendOnNewFile | main.py:112-136 | on a new file the sheet becomes the header and then the row |
| Ledger.Workbook.Invoices | main.py:129 | the invoice rows exist exactly when the file exists and has the sheet |
| Ledger.Workbook.EnsureWorkbook | main.py:112-124 | afterwards the file exists and its sheets are the opened sheets |
| Ledger.Workbook.AppendInvoiceRow | main.py:126-136 | success exactly when the append succeeds, and then the sheets are the appended ones; on failure nothing changes; the file exists afterwards |
| Pipeline.ProbeSchedule | main.py:141-143 | steps 1 to 49 send no probe; every 50th step does |
| Pipeline.ProbeDue | main.py:141-143 | no probe is due before the 50th step (ProbeSchedule gives the period) |
| Pipeline.Reversed | main.py:183 | `reversed` keeps the length and reads the list from the back |
| Pipeline.VisitShape | main.py:180-183 | a positive limit visits the min(limit, 200) newest ids; a zero limit visits every id; a negative limit skips the -limit oldest ids; the visit always goes newest first |
| Pipeline.CutStart | main.py:180 | the slice start lies within the list; a positive limit keeps min(limit, 200, n) ids; a zero limit keeps them all, since `-0` is 0 |
| Pipeline.Visit | main.py:180-183 | the visit is the ids after the cut, newest first (VisitShape gives its length for every limit) |
| Pipeline.NamesOf | main.py:203 | one name per attachment, in order |
| Pipeline.RecordShape | main.py:208-245 | the record of an accepted message has reason "keyword"; its score is in 0..100, or is empty with empty tokens when scoring failed; its amount is searched in the subject first |
| Pipeline.RiskOf | main.py:210-227 | when scoring succeeds, the score is in 0..100 and there are at most five tokens |
| Pipeline.RecordOf | main.py:195-245 | one attachment name per listed attachment; a score in 0..100, or none with empty tokens; the amount searched in the subject, a newline and the body |
| Pipeline.Saved | main.py:183-208 | the saved messages are accepted fetched entries, each at its step, in increasing step order |
| Pipeline.RowsOf | main.py:230-245 | one row per saved message, in order |
| Pipeline.RunRows | main.py:182-248 | a run that has not stopped has appended exactly the rows of the accepted fetched messages, in visiting order, after the opened sheet's rows, and counted them; with none accepted the file is untouched |
| Pipeline.Step | main.py:184-248 | one step stops the run only by a broken due probe or a failed append at that step; it saves at most one invoice, only for an accepted fetched message, and the file exists afterwards |
| Pipeline.Run | main.py:183-250 | a run that starts stopped does nothing, and the count grows by at most one per visited entry (RunRows and RunStops give the rest) |
| Pipeline.StepSaves | main.py:208-250 | one step keeps that correspondence, adding the message when it is fetched and accepted |
| Pipeline.SheetGrows | main.py:230-245 | appending one more row extends the rows saved so far |
| Pipeline.RowsOfSnoc | main.py:230-248 | one more saved message adds its row at the end |
| Pipeline.RunStaysStopped | main.py:183-250 | an exception that leaves the loop ends the run: later entries change nothing |
| Pipeline.RunStops | main.py:141-245 | in the model, a run stops only on a due probe that raises, or on an existing file without the sheet, and then nothing was saved (the further ways the code can end a batch are under "Left out") |
| Pipeline.OnlyDueProbesMatter | main.py:141-148 | in the model, only due probes matter, and an aborted probe is as good as a live one |
| Pipeline.ProcessAll | main.py:166-259 | a failed search changes nothing; otherwise the file, the count and the reason for an early stop are those of the run over the cut, reversed ids |
| Pipeline.ProcessOne | main.py:184-250 | one loop pass does exactly one step of the run |
| Pipeline.SaveIfInvoice | main.py:197-250 | a fetched message past the probe, with the gate's verdict and record, is appended and counted when accepted; a failed append stops the run; a rejected message leaves everything alone |
| Pipeline.StepOnRejected | main.py:249-250 | a rejected message leaves the run as it was |
| Pipeline.StepOnAccepted | main.py:230-248 | an accepted message is appended and counted, or stops the run when the sheet is missing |
| Pipeline.Judge | main.py:197-200 | the gate's verdict, and the record of an accepted message |
| Pipeline.Record | main.py:202-244 | the fields of an accepted message are computed as the record of that message |

## Findings

| source | as written | input that shows it | evidently intended | confidence | as-written member | corrected member |
|---|---|---|---|---|---|---|
| train_model.py:11-36 | `amt_token` catches only the exception `float()` raises. pandas reads an empty amount cell as NaN, and line 36 fills an absent amount column with NaN. `float(nan)` succeeds, `nan < 100` and `nan < 1000` are false, and the bucket is `AMOUNT_BIN:HIGH` | a labelled row whose amount cell is empty, or a table without an amount column | `AMOUNT_BIN:UNK`, the bucket the scorer gives a message without an amount (ai_fraud_ml.py:16-17 via `float(None)`) | high; not executed | Training.NaNAmountIsHigh | Training.MissingAmountAgrees |

## Left out

- Logging in, selecting the mailbox, the IMAP search and fetch, and the logout at main.py:253-256 are not modelled. The mailbox is an input: `None` when the search fails, and `None` for an entry whose fetch fails. A fetch that raises, rather than returning a failed status, is not modelled.
- The prompts for address and password, every `print`, the "No invoices matched" message and the debug line are not modelled: they only produce console output.
- Parsing raw bytes into a message and `decode_mime_header` are not modelled. Messages arrive with decoded headers and a tree of parts with decoded texts and payloads. A parse error is not modelled either.
- `parseaddr` is not modelled. It is an input function of the environment.
- The `.xlsx` file format, `load_workbook` and `save` are not modelled. The file is a flag saying whether it exists, plus a map from sheet names to rows of typed cells.
- `datetime.now()` is not modelled. The time stamp of step `i` is an input (`Env.clock`).
- Writing attachments to disk is not modelled. `SAVE_ATTACHMENTS` is false in the code, and only the payload kept in the entry follows the flag.
- The classifier, the vectorizer and `joblib` loading are not modelled. What they say about a text is an input (`FraudModel.Classifier`); a loading failure is a missing probability.
- The `lru_cache` on the loader is not modelled.
- Of train_model.py, the pandas reading, `fillna`, the split, the fit and the report are not modelled. Only the text encoding is. A CSV cell is a string or missing. An empty amount cell is a missing amount (see Findings).
- `KEYWORDS` and `INVOICE_RE` (main.py:99-100) are defined but never used by the code, so they are not modelled.
- Builtins.Lower: folds ASCII letters only; Python's `str.lower` also folds non-ASCII letters.
- Builtins.IsSpace: lists the code points `str.isspace` accepts; `\s` in `re` matches the same set for `str` patterns.
- Builtins.ParseFloat: reads plain decimal notation with an optional sign and surrounding whitespace. Exponents ("1e3"), "inf", "nan" and digit-group underscores ("1_000") are not modelled. On the scoring side nothing is lost, because the amounts handed to it are digit runs or missing. A training CSV amount cell can hold such text. Python then buckets the number (HIGH for "1e3", "inf" or "1_000"), but the model gives UNK. A NaN amount is covered separately by `Training.AmtTokenAsWritten`. Decimal digits outside ASCII, such as Arabic-Indic digits, are accepted by `float()` but not by the model, which reads the ASCII digits 0-9 only; a training amount written in them is UNK in the model and a numeric bucket in Python.
- Builtins.Decimal: numbers are exact reals, not binary floating point, so rounding of decimal fractions is not modelled.
- FraudModel.RiskScore: `proba * 100` is computed exactly, not in floating point.
- Fields.SplitExt: follows the POSIX rules of `os.path.splitext` ("/" separates directories; leading dots of the last component do not start an extension).
- Mime.Walk: a part is multipart exactly when it has sub-parts.
- Pipeline.RunStops: other uncaught exceptions that end a batch in the code are not modelled. These are openpyxl refusing a cell with control characters in `ws.append` (main.py:131), `wb.save` failing (main.py:123 and main.py:136), and `imap.fetch` raising, for instance on a connection left broken after a swallowed abort (main.py:186). The model's `AppendInvoiceRow` fails only on a missing sheet, and its fetch never raises.
- FraudModel.SortByWeightDesc: Python's `list.sort` (Timsort) is modelled by a stable insertion sort. Both are stable, so they produce the same order.
