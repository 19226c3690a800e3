# TCC evaluation forms — a Dafny model

This is a model of the client-side core of the TCC (final-year project) evaluation-forms
application of the computing courses: the Computer Science course (CC) and the
Information Systems course (SI). Evaluators fill in one of four forms:
- a progress evaluation (CC);
- a final evaluation (CC or SI);
- the minutes of the public presentation.

The application scores the form and renders it as an A4 PDF. It also shares
pre-filled links to the forms.

The model covers six parts of that core. Each part is one module.

- **Forms** and **Scoring**. These hold the criteria of each form kind and the
  approval limits. They also hold the score calculator of the evaluation table.
  The calculator caps each stored score at the criterion maximum and treats a
  missing score as zero. It reports `total / max × 10`, or 0 when the maximum
  is 0. The input clamp of a score cell is here too. Scores are exact real
  numbers rather than JavaScript doubles; "## Left out" says where that
  changes a verdict.
- **PdfFormat** and **PdfLayout**. These model the PDF layout engine. A
  document is a trace of abstract drawing operations with their y positions in
  millimetres:
  - page breaks, with or without the short running header;
  - text lines, headings and table cells;
  - signature images and signature lines.

  The sections are modelled with their geometry: the header, the student block,
  the evaluation table, the comments, and either the evaluator signature or the
  four signatures of the minutes. The dates, the file name and the table's
  total cell are modelled on text. What the trace prints is also read back:
  the signer captions and the unlabelled lines, in order.
- **UrlCodec**. This holds the pre-fill codec:
  - generating a link from a form kind and its fields;
  - reading the fields back from the query string;
  - recognising the form route;
  - the form titles.
- **Theme**. This is the theme provider. It covers the start-up choice among
  light, dark and high contrast, the cyclic toggle, and the effect that stores
  the theme and writes it onto the root element.
- **FormField**. This is the `YYYY/N` semester mask of the text fields.
- **SignatureField**. This is the signature pad:
  - the mapping from touch or mouse position to canvas position;
  - the centred, aspect-preserving fit of an uploaded image;
  - the event handlers, the draw/upload radio and the effect that paints a new
    `value` over the canvas, as a state machine over the pad's flags and mode,
    the values it reports and the alert it shows.

Browser facilities are parameters. These cover:
- storage and media queries;
- the canvas's bounding rectangle and its PNG encoding;
- jsPDF's line wrapping and image acceptance;
- the URL encoder;
- the clock.

Throughout, `Common` holds the shared helpers: `Option`, string splitting and
joining, and decimal digits.

## Model

| member | source | states |
|---|---|---|
| Forms.FormTypeNameSnakeCase | src/types/forms.ts:3-7 | every form kind name is a non-empty lower-case snake_case token, so it contains no space, '?' or '/' |
| Forms.MaxScoresSumToTen | src/types/forms.ts:69-180 | the maximum scores of every form kind add up to exactly 10 |
| Forms.CriterionIdsUnique | src/types/forms.ts:69-180 | no two criteria of one form kind share an id |
| Forms.KeyIdInjective | src/types/forms.ts:69-180 | distinct criteria never carry the same id string |
| Forms.IdKeyInverse | src/types/forms.ts:69-180 | reading a criterion id back gives the criterion it names |
| Forms.Criteria | src/types/forms.ts:69-180 | definition: the criteria of each form kind with their descriptions, weights and maxima; stated by `MaxScoresSumToTen`, `CriteriaWellFormed` and `CriteriaCount` |
| Forms.CriteriaWellFormed | src/types/forms.ts:69-180 | every criterion has weight 1 and a positive maximum score |
| Forms.CriteriaCount | src/types/forms.ts:69-180 | every form kind has between one and seven criteria |
| Forms.AtaHasOnlyFinalGrade | src/types/forms.ts:172-179 | the minutes have the single criterion `nota_final`, out of 10 |
| Forms.ApprovalLimit | src/types/forms.ts:197-205 | the limit is 6 exactly for CC and 7 exactly for SI, and is always one that makes the approval status shown |
| Scoring.StoredScore | src/components/EvaluationTable.tsx:38 | definition: the stored score of a criterion, 0 when none is stored; its meaning is stated by `MissingScoreCountsAsZero` |
| Scoring.TotalScore | src/components/EvaluationTable.tsx:35-43 | definition: the sum of the capped stored scores; its bounds and monotonicity are stated by `TotalAtMostMax`, `TotalNonNegative` and `TotalMonotone` |
| Scoring.FinalScore | src/components/EvaluationTable.tsx:33-47 | definition: total over maximum total, times ten, or 0 without a positive maximum; its range and monotonicity are stated by the lemmas below |
| Scoring.Approved | src/components/EvaluationTable.tsx:179-194 | definition: the badge and the status are green exactly when the final score is at least 6 |
| Scoring.Capped | src/components/EvaluationTable.tsx:40 | a capped score is the score or the maximum, whichever is smaller |
| Scoring.TotalAtMostMax | src/components/EvaluationTable.tsx:37-43 | the capped total never exceeds the sum of maxima |
| Scoring.TotalNonNegative | src/components/EvaluationTable.tsx:37-43 | with non-negative scores and maxima the total is non-negative |
| Scoring.TotalMonotone | src/components/EvaluationTable.tsx:37-43 | raising stored scores never lowers the total |
| Scoring.TotalRespectsStoredScores | src/components/EvaluationTable.tsx:37-43 | the total depends only on the capped score of each listed criterion |
| Scoring.FinalScoreAtMostTen | src/components/EvaluationTable.tsx:33-47 | the final score is at most 10 for any criteria and scores |
| Scoring.FinalScoreNonNegative | src/components/EvaluationTable.tsx:33-47 | with non-negative maxima and scores the final score is at least 0 |
| Scoring.ZeroMaximumScoresZero | src/components/EvaluationTable.tsx:46 | any criteria list whose maxima sum to 0 or less gives score 0, whatever is stored, and so is not approved |
| Scoring.EmptyCriteriaScoreZero | src/components/EvaluationTable.tsx:46 | the empty criteria list, in particular, scores 0 |
| Scoring.FinalScoreMonotone | src/components/EvaluationTable.tsx:33-47 | raising stored scores never lowers the final score |
| Scoring.RaiseOneScore | src/components/EvaluationTable.tsx:33-47 | raising one criterion's score never lowers the final score |
| Scoring.MissingScoreCountsAsZero | src/components/EvaluationTable.tsx:38 | a criterion with no stored score counts exactly as one scored 0 |
| Scoring.ExcessScoreIsCapped | src/components/EvaluationTable.tsx:40-42 | any two scores at or above a criterion's maximum give the same final score |
| Scoring.FormScoreInRange | src/components/EvaluationTable.tsx:29-47 | for every form kind and non-negative scores the final score lies in [0, 10] |
| Scoring.WorkedExample | src/components/EvaluationTable.tsx:33-47 | a concrete progress evaluation scores 8 and is approved |
| Scoring.ThresholdExample | src/components/EvaluationTable.tsx:33-47 | the progress form scored 1.4, 2.8 and 1.8 scores exactly 6.0 and is approved in real arithmetic (see "## Left out" for doubles) |
| Scoring.ApprovalIgnoresCourseLimit | src/components/EvaluationTable.tsx:179-194 | 6.5 shows as approved although it is below the SI limit of 7 |
| Scoring.ClampInput | src/components/EvaluationTable.tsx:127-133 | an unparsable cell becomes 0, a value above the maximum becomes the maximum, a negative one becomes 0, and an in-range value is kept |
| Scoring.ClampIdempotent | src/components/EvaluationTable.tsx:127-133 | clamping a clamped value changes nothing |
| Common.Split | src/utils/pdfGenerator.ts:101-104 | the pieces never contain the separator, and there is exactly one piece when the separator is absent |
| Common.JoinSplit | src/utils/pdfGenerator.ts:101-104 | joining the pieces of a split gives back the text |
| Common.SplitJoin | src/utils/pdfGenerator.ts:101-104 | splitting a join of separator-free pieces gives back the pieces |
| Common.SplitFirstPiece | src/utils/pdfGenerator.ts:100-102 | when the separator occurs, the first piece is the text before its first occurrence |
| Common.DecimalRoundTrip | src/utils/pdfGenerator.ts:389 | the decimal text of the timestamp reads back as the same number |
| PdfFormat.DatePart | src/utils/pdfGenerator.ts:100-102 | a date with a 'T' keeps exactly the text before the first 'T'; a date without one is kept whole; the result never has a 'T' |
| PdfFormat.FormatIsoDate | src/utils/pdfGenerator.ts:100-105 | an ISO `yyyy-mm-dd` date, with or without a time, prints as `dd/mm/yyyy` |
| PdfFormat.FormatDate | src/utils/pdfGenerator.ts:100-105 | definition: the `-` pieces of the date part, printed day/month/year; its result on ISO dates is stated by `FormatIsoDate` |
| PdfFormat.SignatureDateLine | src/utils/pdfGenerator.ts:267-277 | definition: "Santa Maria, " and the formatted date, or the blank placeholder for an empty date; stated by `SignatureDateCases` and `SignatureDateOfIsoDate` |
| PdfFormat.StudentDateLine | src/utils/pdfGenerator.ts:100-106 | definition: the labelled formatted date, without a placeholder; stated by `StudentDateOfIsoDate` and `StudentDateOfEmptyDate` |
| PdfFormat.DateExample | src/utils/pdfGenerator.ts:100-105 | `2025-03-05` prints as `05/03/2025`, and so does `2025-03-05T10:00:00Z`: the time is dropped |
| PdfFormat.SignatureDateCases | src/utils/pdfGenerator.ts:268-277 | an empty date prints the blank `___/___/______`, and any other date prints its day/month/year |
| PdfFormat.SignatureDateOfIsoDate | src/utils/pdfGenerator.ts:267-274 | an ISO date `year-month-day`, with or without a time part, prints as `Santa Maria, day/month/year` |
| PdfFormat.StudentDateOfIsoDate | src/utils/pdfGenerator.ts:99-105 | the same ISO date prints in the student block as `Data da Avaliação: day/month/year` |
| PdfFormat.StudentDateOfEmptyDate | src/utils/pdfGenerator.ts:100-106 | the student block prints an empty date as `undefined/undefined/` |
| PdfFormat.Underscored | src/utils/pdfGenerator.ts:389 | the student name with its runs of white space replaced has no white space left |
| PdfFormat.SkipSpacesRun | src/utils/pdfGenerator.ts:389 | the replacement consumes a whole run of white space and stops at the next visible character |
| PdfFormat.UnderscoredRun | src/utils/pdfGenerator.ts:389 | each run of white space between words becomes exactly one '_', with the text on both sides kept |
| PdfFormat.UnderscoredKeepsVisible | src/utils/pdfGenerator.ts:389 | the replacement keeps every character of the name other than white space and underscores, in order |
| PdfFormat.UnderscoredIdentity | src/utils/pdfGenerator.ts:389 | a name without white space is kept unchanged |
| PdfFormat.FileName | src/utils/pdfGenerator.ts:389 | the file name is the form kind, '_', the student name with each run of white space replaced by one '_', '_', the timestamp's digits and `.pdf`; it has no spaces |
| PdfFormat.Assemble | src/utils/pdfGenerator.ts:389 | in `kind_name_digits.pdf` each part can be found again at its position, and the result has no spaces when the parts have none |
| PdfFormat.FileNameTimestamp | src/utils/pdfGenerator.ts:389 | the digits before `.pdf` read back as the timestamp |
| PdfFormat.AsRecord | src/utils/pdfGenerator.ts:141 | an id has an entry in the score record exactly when some score entry carries it |
| PdfFormat.RowScore | src/utils/pdfGenerator.ts:141-142 | definition: the score of the first entry with the id, 0 without one; tied to the calculator by `RowScoreMatchesRecord` |
| PdfFormat.TableTotals | src/utils/pdfGenerator.ts:136-159 | definition: the capped total and the maximum total the table loop accumulates; tied to the calculator by `TableTotalsMatchCalculator` |
| PdfFormat.TotalCell | src/utils/pdfGenerator.ts:169-171 | definition: the one-decimal text of the final score, or `0.0` without a positive maximum; tied to the calculator by `CopiesAgree` |
| PdfFormat.RowScoreMatchesRecord | src/utils/pdfGenerator.ts:141-142 | a table row prints the same score the calculator reads for that criterion |
| PdfFormat.TableTotalsMatchCalculator | src/utils/pdfGenerator.ts:136-159 | the table accumulates the same capped total and the same maximum as the calculator |
| PdfFormat.CopiesAgree | src/utils/pdfGenerator.ts:136-171 | the table's total cell is the calculator's final score at one decimal, and `0.0` exactly when the calculator gives 0 for a zero maximum |
| PdfLayout.CheckPageBreak | src/utils/pdfGenerator.ts:15-25 | a block that does not fit below the cursor opens one new page with the short header and restarts at 40 mm; otherwise nothing is drawn and the cursor stays |
| PdfLayout.BareBreak | src/utils/pdfGenerator.ts:284-287 | past the limit, a page break without a header that restarts at 20 mm; otherwise nothing |
| PdfLayout.HeaderOps | src/utils/pdfGenerator.ts:38-59 | the header draws five operations on the first page, the fourth being the title line at 50 mm |
| PdfLayout.StudentInfoBlock | src/utils/pdfGenerator.ts:61-109 | the student block starts at 70 mm whatever came before, advances 7 mm per printed line, ends with the evaluation date, and never breaks the page |
| PdfLayout.TableRows | src/utils/pdfGenerator.ts:140-159 | one row per criterion, 8 mm apart, each with its description and stored score |
| PdfLayout.TableBody | src/utils/pdfGenerator.ts:118-172 | a heading, a header row, the criterion rows, then the total row with the calculator's total cell |
| PdfLayout.TableBlock | src/utils/pdfGenerator.ts:111-175 | at most one page break, taken for the whole table height, and the cursor 15 mm below the total row |
| PdfLayout.TableEndsWithTotal | src/utils/pdfGenerator.ts:115-172 | after any page check, the table body is drawn in full and its last operation is the total row |
| PdfLayout.AddEvaluationTable | src/utils/pdfGenerator.ts:111-175 | the criteria of the form kind always fit on the page after the single check |
| PdfLayout.AddComments | src/utils/pdfGenerator.ts:177-200 | absent or empty comments draw nothing; otherwise the text is the last operation, 10 mm above the returned cursor, and there are at most two page breaks |
| PdfLayout.CommentsLayout | src/utils/pdfGenerator.ts:177-200 | present comments: the 30 mm page check is followed by the Observations heading; when the text fits below it, the text follows 10 mm under the heading with no second break and the cursor ends 10 mm under the text |
| PdfLayout.CommentsWithoutBreak | src/utils/pdfGenerator.ts:177-200 | comments whose heading and text fit below the cursor are drawn there, with no page break |
| PdfLayout.Mark | src/utils/pdfGenerator.ts:230-245 | an embeddable image signature is drawn as an image; anything else becomes a signature line |
| PdfLayout.EvaluatorSignature | src/utils/pdfGenerator.ts:228 | the evaluator's entry in the signature record wins when it is non-empty; otherwise the form's single signature is used |
| PdfLayout.Repeat | src/utils/pdfGenerator.ts:252 | the blank placeholder consists of exactly `n` copies of the character |
| PdfLayout.OrBlank | src/utils/pdfGenerator.ts:250-255 | a name or institution with visible text is printed as is; otherwise the placeholder is printed; either way something visible is printed |
| PdfLayout.EvaluatorSignatureBlock | src/utils/pdfGenerator.ts:219-278 | the title, the mark, the name and the institution (each the placeholder when blank), and the dated place line, all on one page |
| PdfLayout.EvaluatorSignaturePrints | src/utils/pdfGenerator.ts:250-262 | the evaluator's section prints no signer caption and exactly two plain lines, the name and then the institution |
| PdfLayout.NameOr | src/utils/pdfGenerator.ts:312 | a non-empty name is used; otherwise the role's fallback; never empty |
| PdfLayout.InfoNameOr | src/utils/pdfGenerator.ts:297-308 | the evaluator info's name when present and non-empty; otherwise the fallback; never empty |
| PdfLayout.AtaSigners | src/utils/pdfGenerator.ts:294-315 | four signers of the minutes, advisor, first examiner, second examiner and student, in that order, each with a non-empty name |
| PdfLayout.BlockTop | src/utils/pdfGenerator.ts:319-322 | a signer block never starts below 240 mm, and one that fits starts where the cursor is |
| PdfLayout.SignerBody | src/utils/pdfGenerator.ts:324-352 | a signer's caption, mark and name, in that order |
| PdfLayout.SignerBodyPrints | src/utils/pdfGenerator.ts:324-352 | a signer's body prints that signer's caption and name, once each |
| PdfLayout.SignerBlock | src/utils/pdfGenerator.ts:317-353 | a page break exactly when the cursor is past 240 mm, then the signer's body |
| PdfLayout.SignerBlocks | src/utils/pdfGenerator.ts:317-367 | at most one page break per signer, ending with the dated place line |
| PdfLayout.SignerBlocksPrint | src/utils/pdfGenerator.ts:317-367 | the blocks print exactly one caption and one name per signer, in the signers' order |
| PdfLayout.AtaBody | src/utils/pdfGenerator.ts:289-367 | the signatures title first, the dated place line last, and at most one break per signer |
| PdfLayout.AtaBodyPrints | src/utils/pdfGenerator.ts:289-367 | the section prints the signers' captions and names, in the signers' order |
| PdfLayout.AtaSignaturesBlock | src/utils/pdfGenerator.ts:280-368 | one bare break when the cursor is past 150 mm, plus at most one per signer |
| PdfLayout.AtaSignaturesPrint | src/utils/pdfGenerator.ts:280-368 | whether or not it opens a page, the section prints the signers' captions and names in their order |
| PdfLayout.AtaSignaturesOpening | src/utils/pdfGenerator.ts:284-292 | past 150 mm the section opens a page without the short header and puts its title at 20 mm |
| PdfLayout.AddSignature | src/utils/pdfGenerator.ts:202-217 | evaluation forms break the page at most once and stay headed; the minutes break it at most six times |
| PdfLayout.MinutesSignaturePrints | src/utils/pdfGenerator.ts:202-367 | the minutes print the captions of the advisor, first examiner, second examiner and student, in that order, and their four names in the same order |
| PdfLayout.EvaluatorFormSignaturePrints | src/utils/pdfGenerator.ts:202-278 | an evaluation form's signature section prints no signer caption, only the evaluator's name and institution |
| PdfLayout.GenerateFormPdf | src/utils/pdfGenerator.ts:370-391 | the document of an evaluation form is headed on every page and spans at most 5 pages; the minutes span at most 10; the title is the fourth operation; the file name has no spaces and starts with the form kind |
| PdfLayout.HeaderPrintsNone | src/utils/pdfGenerator.ts:38-59 | the header prints no signer caption and no unlabelled line |
| PdfLayout.StudentInfoPrintsNone | src/utils/pdfGenerator.ts:61-109 | every line of the student block carries its field label |
| PdfLayout.TableBodyPrintsNone | src/utils/pdfGenerator.ts:118-172 | the table body prints no text line |
| PdfLayout.TablePrintsNone | src/utils/pdfGenerator.ts:111-175 | neither does the table after its page check |
| PdfLayout.CommentsPrint | src/utils/pdfGenerator.ts:177-200 | the comments section prints the comment text as its only unlabelled line, and nothing for absent or empty comments |
| PdfLayout.DocumentCaptions | src/utils/pdfGenerator.ts:370-391 | a whole minutes document prints the four signer captions in order and no other; an evaluation form prints none |
| PdfLayout.DocumentPlainLines | src/utils/pdfGenerator.ts:370-391 | the unlabelled lines of a whole document are the comments, when present, then the four signers' names (minutes) or the evaluator's name and institution (evaluation forms) |
| UrlCodec.KeyFieldInverse | src/utils/urlUtils.ts:28-40 | every pre-fill field's key reads back as that field |
| UrlCodec.FieldKeyInjective | src/utils/urlUtils.ts:28-40 | distinct fields have distinct keys |
| UrlCodec.AllFieldsValid | src/utils/urlUtils.ts:28-40 | every pre-fill field is on the valid-field list |
| UrlCodec.AppendedPairs | src/utils/urlUtils.ts:12-16 | only truthy fields are appended, under their own key and with a non-empty value |
| UrlCodec.Get | src/utils/urlUtils.ts:43 | definition: the value of the first pair with the name; stated by `GetFirst` |
| UrlCodec.GetFirst | src/utils/urlUtils.ts:43 | `get` finds the first pair with the name, and nothing exactly when no pair has it |
| UrlCodec.GetAppended | src/utils/urlUtils.ts:12-16 | looking a field up among the appended pairs gives exactly its supplied value |
| UrlCodec.SuppliedAbsent | src/utils/urlUtils.ts:12-16 | a field with no entry is not supplied |
| UrlCodec.PieceRoundTrip | src/utils/urlUtils.ts:14-18 | one encoded `name=value` piece parses back to its pair |
| UrlCodec.ParseEncoded | src/utils/urlUtils.ts:14-24 | parsing the encoded pieces gives back the pairs |
| UrlCodec.Serialize | src/utils/urlUtils.ts:9-18 | definition: the encoded `name=value` pairs joined by `&`; read back by `ParseSerialize` |
| UrlCodec.ParseQuery | src/utils/urlUtils.ts:24 | definition: the search string without its leading `?`, split at `&` and decoded; inverts `Serialize` by `ParseSerialize` |
| UrlCodec.ParseSerialize | src/utils/urlUtils.ts:9-24 | the serialised query, read back after its '?', gives exactly the pairs written |
| UrlCodec.GeneratePrefilledUrl | src/utils/urlUtils.ts:3-19 | the link is the base (or origin), `/forms/`, the form kind and '?', followed by the query |
| UrlCodec.SearchOfGeneratedUrl | src/utils/urlUtils.ts:18 | the search part of a generated link is '?' plus its serialised query |
| UrlCodec.SearchAfter | src/utils/urlUtils.ts:18 | the search part begins at the first '?' |
| UrlCodec.FormTypeNameNoQuery | src/utils/urlUtils.ts:18 | the form kind segment contains no '?' |
| UrlCodec.SuppliedTruthy | src/utils/urlUtils.ts:13 | a supplied value is never empty |
| UrlCodec.Collect | src/utils/urlUtils.ts:42-47 | a field is in the result exactly when `get` finds a non-empty value for it, and then maps to that value |
| UrlCodec.ParseUrlParams | src/utils/urlUtils.ts:21-50 | there is nothing without a window; otherwise every collected value is non-empty |
| UrlCodec.IgnoresUnknownKeys | src/utils/urlUtils.ts:28-47 | inserting a pair with an unknown key anywhere in the query changes nothing |
| UrlCodec.CollectCongruent | src/utils/urlUtils.ts:42-47 | queries that agree on every valid key's lookup collect the same data |
| UrlCodec.PrefillRoundTrip | src/utils/urlUtils.ts:3-50 | reading a generated link back recovers exactly the supplied fields with their values, and nothing else |
| UrlCodec.ParseFormType | src/utils/urlUtils.ts:100-108 | a segment names a form kind exactly when it equals that kind's name |
| UrlCodec.FormTypeFromPath | src/utils/urlUtils.ts:96-109 | the result is the form kind named by the capture at the first match of `/forms/`; a path without a match gives none |
| UrlCodec.RouteCapture | src/utils/urlUtils.ts:96-109 | after any prefix in which the pattern does not match, `/forms/` plus one line is recognised exactly when that line is a form identifier |
| UrlCodec.RouteAfterPlainPrefix | src/utils/urlUtils.ts:96-109 | the same holds after any prefix without a '/', the empty one included |
| UrlCodec.FormRouteRecognised | src/utils/urlUtils.ts:96-109 | `/forms/<kind>` is recognised as that kind |
| UrlCodec.SubRouteRejected | src/utils/urlUtils.ts:96-109 | `/forms/<kind>/<more>`, such as the generator page, is not a form kind |
| UrlCodec.FormTitle | src/utils/urlUtils.ts:111-120 | every form kind has a non-empty title |
| UrlCodec.FormTitlesDistinct | src/utils/urlUtils.ts:111-120 | distinct form kinds have distinct titles |
| Theme.ParseTheme | src/contexts/ThemeContext.tsx:23-24 | a stored string is a theme exactly when it equals that theme's token |
| Theme.ThemeName | src/contexts/ThemeContext.tsx:5 | definition: the token of each theme; read back by `ParseTheme` |
| Theme.ThemeNameIsToken | src/contexts/ThemeContext.tsx:52 | every theme's token is one of the three removed root classes |
| Theme.CycleIndex | src/contexts/ThemeContext.tsx:64-65 | every theme has its position in the toggle cycle |
| Theme.Toggle | src/contexts/ThemeContext.tsx:63-68 | the toggle always changes the theme, moving one step along the cycle |
| Theme.ToggleOrder | src/contexts/ThemeContext.tsx:63-68 | light goes to dark, dark to high contrast, high contrast to light |
| Theme.ToggleThrice | src/contexts/ThemeContext.tsx:63-68 | three toggles return to the start, visiting all three themes |
| Theme.InitialTheme | src/contexts/ThemeContext.tsx:19-43 | a valid stored theme wins; otherwise high contrast beats dark beats light; a throwing browser gives light |
| Theme.InvalidStoredValueIgnored | src/contexts/ThemeContext.tsx:23-37 | a stored string that is not a theme is treated as nothing stored |
| Theme.ApplyTheme | src/contexts/ThemeContext.tsx:51-56 | the root keeps exactly one theme class, the applied one; every other class is untouched; `data-theme` is set |
| Theme.ApplyLastWins | src/contexts/ThemeContext.tsx:51-56 | applying a theme over another gives the same root as applying it alone |
| Theme.Initial | src/contexts/ThemeContext.tsx:16-17 | the first render is light and not mounted |
| Theme.Sync | src/contexts/ThemeContext.tsx:45-61 | the effect never changes the theme; before mount, or when storage throws, it changes nothing at all |
| Theme.Mount | src/contexts/ThemeContext.tsx:19-43 | after the mount effect the provider is mounted and its theme is the start-up choice for what storage and the media queries return, light when storage cannot be read; storage and the root are untouched when storage cannot be written |
| Theme.MountStartupPaths | src/contexts/ThemeContext.tsx:21-42 | unreadable storage mounts light; without a valid stored theme the provider mounts high contrast, dark or light from the media queries, and light when they throw |
| Theme.SetTheme | src/contexts/ThemeContext.tsx:16 | setting a theme makes it current and leaves the mounted flag alone |
| Theme.ToggleTheme | src/contexts/ThemeContext.tsx:63-68 | the provider's toggle makes the next theme of the cycle current |
| Theme.MountReflects | src/contexts/ThemeContext.tsx:19-61 | once mounted with writable storage, the stored value, the theme class and `data-theme` all match the theme, and other classes are kept |
| Theme.SetThemeKeepsReflected | src/contexts/ThemeContext.tsx:45-68 | later `setTheme` and toggle calls keep the browser state matching the theme |
| Theme.UnmountedTouchesNothing | src/contexts/ThemeContext.tsx:46 | before mount nothing is stored and the root is untouched |
| Theme.PersistedThemeRestored | src/contexts/ThemeContext.tsx:19-61 | a persisted theme is restored at the next start-up, whatever the media preferences |
| Theme.ContextTheme | src/contexts/ThemeContext.tsx:94-103 | outside a provider the safe hooks see light; inside one they see the provider's theme |
| FormField.Digits | src/components/FormField.tsx:46 | the result is all digits and no longer than the input, and an all-digit input is kept |
| FormField.DigitsAppend | src/components/FormField.tsx:46 | removing non-digits distributes over concatenation |
| FormField.ApplyMask | src/components/FormField.tsx:42-58 | an empty or unknown mask keeps the value; the semester mask gives up to four digits, or four digits, '/' and the fifth digit |
| FormField.SemesterKeepsLeadingDigits | src/components/FormField.tsx:46-54 | the masked value's digits are exactly the first five digits typed |
| FormField.MaskIdempotent | src/components/FormField.tsx:42-58 | masking a masked value changes nothing |
| SignatureField.ToCanvas | src/components/SignatureField.tsx:52-85 | a touch or click maps to canvas coordinates exactly when the canvas has a non-zero on-screen width and height |
| SignatureField.TouchInsideLandsOnCanvas | src/components/SignatureField.tsx:52-85 | a touch or click inside the canvas's rectangle lands inside the 400 × 150 drawing surface |
| SignatureField.AxisRoundTrip | src/components/SignatureField.tsx:84-85 | scaling one axis to the canvas and back gives the screen coordinate |
| SignatureField.ToCanvasInverse | src/components/SignatureField.tsx:84-85 | mapping the canvas point back to the screen gives the touch or mouse position |
| SignatureField.Fit | src/components/SignatureField.tsx:171-182 | a non-empty image is drawn inside the canvas, centred, with its aspect ratio kept |
| SignatureField.PngDataUrl | src/components/SignatureField.tsx:133 | a saved drawing is an image data URL |
| SignatureField.Save | src/components/SignatureField.tsx:129-135 | a value is reported exactly when the canvas is mounted |
| SignatureField.Trace | src/components/SignatureField.tsx:84-118 | a mapped position adds exactly one point, the one that maps back to the position, unless the rectangle has collapsed |
| SignatureField.Handle | src/components/SignatureField.tsx:30-281 | covers every handler, the `value` effect and the radio: canvas events act only in draw mode with a ready canvas, a start begins drawing and a start or a move while drawing traces the mapped point; a stop ends drawing, marks the pad signed and reports the canvas when it exists; a disabled pad ignores starts, moves, uploads, clears and mode changes; clear needs a signature and reports ''; an upload in upload mode alerts exactly when the file is not an image, and otherwise draws the fitted image and reports it; a truthy `value` marks the pad signed and, when it loads on a ready canvas, replaces the ink by the value's image over the whole canvas; only the radio changes the mode |
| SignatureField.StrokePointLandsOnCanvas | src/components/SignatureField.tsx:61-119 | a start, or a move while drawing, inside the canvas rectangle extends the ink by one point on the 400 × 150 surface that maps back to the position |
| SignatureField.DisabledPadNeverDraws | src/components/SignatureField.tsx:30-281 | a disabled pad never starts drawing and keeps its mode whatever the events; it shows its own ink and image, or a new value painted over the whole canvas, and exactly its own when no new value arrives |
| SignatureField.UploadModeNeverDraws | src/components/SignatureField.tsx:200-240 | in upload mode, with the radio untouched, the pad never starts drawing and its ink can only be wiped |
| SignatureField.ReportedValuesAreImagesOrEmpty | src/components/SignatureField.tsx:129-147 | every reported value is '' or a PNG data URL |
| SignatureField.StrokeReportsOnce | src/components/SignatureField.tsx:122-135 | in draw mode, stopping a stroke ends drawing, marks the pad signed and reports the canvas image once |

## Left out

- The jsPDF drawing primitives are not modelled: fonts, font sizes, `text` alignment and the rectangles' x positions. Line wrapping (`splitTextToSize`) is the `wrap` parameter. Whether `addImage` accepts an image (its `try`/`catch`) is the `embeds` parameter.
- `generateFromHTML` and the `html2canvas` path are left out, because they rasterise the DOM.
- The model does not run `doc.save`. `new Date().getTime()` is the `ms` parameter.
- `copyToClipboard`, `shareUrl` and `getFormDescription` are left out. They are browser I/O or constant text that nothing else uses.
- The theme-class tables of `useThemeClasses` are left out; they are constant CSS class names. Only the theme they pick is modelled, in `Theme.ContextTheme`.
- `useTheme` throwing outside a provider is described but not modelled as a member.
- Percent-encoding inside `URLSearchParams` is not modelled byte by byte. It is an encoder/decoder pair passed in, assumed to invert each other and never to emit '&' or '='. `UrlCodec.PrefillRoundTrip` rests on that assumption.
- URL fragments ('#') are not modelled. The search part is taken as everything from the first '?'.
- The link generator's `data` is a list of distinct field entries. Object key order and non-string values (`value.toString()`) are not modelled.
- The canvas pixels, `toDataURL`'s PNG encoding and `FileReader` are left out. The encoded image is the `payload` parameter. The asynchronous image loads of an upload and of a new `value` happen within the event: an upload's image size, when it loads, is part of the `Upload` event, and whether a new value loads is part of the `ValueProp` event.
- SignatureField.Fit: image sizes are natural numbers. An image with zero height (a non-finite aspect ratio in the source) gives no box.
- SignatureField.Handle: the `disabled` attributes of the radio, the file input and the clear button are modelled as gates on the events they produce. The hidden file input reached through the "select image" button is one `Upload` event. The alert's text is not modelled, only that it is shown.
- Line wrapping depends only on the line. The font size at which it is printed is not part of the key, though the comments wrap at 10 pt and the evaluator's name at 12 pt.
- Number formatting is not modelled. `toFixed(1)` and `toString()` of the scores appear as abstract text cells (`Fixed1`, `Plain`).
- The literal captions, headings and institution lines of the PDF are represented by constructors, not by their Portuguese text.
- PdfLayout.AddSignature, PdfLayout.AtaSignaturesBlock and PdfLayout.GenerateFormPdf state page-count bounds, header placement and image validity. They do not state every y position the sections pass along.
- PdfLayout.TableBlock: the table checks for a page break only once, for its full height. A table taller than a page would overflow. Every form kind's table fits, as `PdfLayout.AddEvaluationTable` states.
- Scoring.FinalScore: scores, totals and the final score are exact reals, where the source uses JavaScript doubles. Bounds and monotonicity carry over, because rounding is monotone. The threshold at 6 does not. For example, the progress form scored 1.4, 2.8 and 1.8 is exactly 6.0 and approved here (`Scoring.ThresholdExample`). In doubles the loop's sum is 5.999999999999999 and the final score 5.999999999999998, so the page shows "✗ REPROVADO" next to a badge reading "6.0".
- Scoring.FinalScoreNonNegative: the calculator has no lower clamp, so a negative stored score lowers the result. Non-negativity is stated only for non-negative scores, which the input clamp guarantees.

Where the behaviour of the code differs from what one might expect, the model follows the code:
- `addStudentInfo` runs for the minutes too, and always restarts at 70 mm.
- An empty evaluation date prints as `undefined/undefined/` in the student block.
- The minutes' signature page opens without the short header.
- The approval badge uses 6 for every course: `getApprovalLimit` is defined but the table does not use it.
