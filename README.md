# Dispute-evidence dashboard: option selection, SMS report and summary text

This project models the deterministic core of a dashboard that helps a
merchant answer a card payment dispute. Streamlit, the database, the Twilio
client and the Gemini client are left out.

- **Response options** (`DisputeOptions`, app.py). The dispute's reason
  column is lower-cased. Its keywords choose one of three option lists:
  fraudulent (4 options), general (10) or credit-not-processed (7). They also
  choose a recommended response. A drop-down can override the
  recommendation with "Use recommended" or any offered option. The offered
  options are then rendered one per line, and the selected one is marked.
- **Evidence narrative** (`EvidenceNarrative`, app.py). This is the draft
  "Product or service details" description. Three fields are substituted
  into a fixed text: the customer name, the issue date and the company name.
  Each field becomes a bracketed placeholder when the invoice lacks its
  column.
- **SMS report** (`TwilioService`, services/twilio_service.py). Listed
  messages become records of Date (`%Y-%m-%d %H:%M:%S`), SMS SID, Status and
  Message. The records become the ordered elements of the PDF report:
  - a title, the number and the total count;
  - then either a table, whose SID column is cut to 20 characters plus
    "...", or a "no messages" note.
- **Summary text** (`AiService`, services/ai_service.py). Each message row
  becomes a line `date | status | body[:500]`. The first 200 lines are joined
  into a fixed prompt. The summary is the stripped, non-blank text of every
  part of every candidate, joined with newlines. The fixed fallback strings
  cover no messages, an empty answer and a failed model call.
- **Python string semantics** (`Text`). This module defines:
  - `pat in s`;
  - `str.lower` on ASCII;
  - `str.strip`, over the full `str.isspace` set;
  - `s[:n]`;
  - `sep.join` and `str.split`.

  Each comes with the lemmas the other modules use: substring search against
  its positional definition, split undoing join, and strip removing only
  white space.

The model's outside inputs are parameters:
- the dispute and invoice rows, each as a map from column name to text;
- the outcome of listing the messages (`Listing`);
- the outcome of the model call (`Generation`: the response, or that the
  call raised).

Three behaviours of the option section are easy to misread, and the model
keeps them as the code has them:
- **Default recommendation.** When no keyword matches, the code recommends
  the first offered option, "The cardholder withdrew the dispute", not "The
  cardholder received the product or service". See
  `DisputeOptions.RecommendationByKeyword`.
- **Order of the general list.** "The purchase was made by the rightful
  cardholder" is the eighth entry of the general list, after "The cardholder
  received the product or service".
- **Keyword order.** The option list tests the general keywords before the
  credit keywords. The recommendation tests them the other way round. So
  "general duplicate" offers the general list and recommends "The
  transaction was non-refundable". `DisputeOptions.RecommendationIsAvailable`
  proves that the recommendation is still always one of the offered options.

## Model

| member | source | states |
|---|---|---|
| DisputeOptions.CatalogWellFormed | app.py:78-110 | The three lists have 4, 10 and 7 entries. Each list's entries are distinct and "Other" comes last. All three open with "withdrew" and "refunded". |
| DisputeOptions.DisputeReason | app.py:73-75 | The reason is "" when the column is missing. Otherwise it is `Lower` of the column value: same length, no upper-case letter left. |
| Text.LowerChar | app.py:75 | Maps A–Z to a–z (code point + 32) and leaves every other character unchanged. |
| Text.Lower | app.py:75 | Each character of the result is `LowerChar` of the input character at the same index. The length is kept and no upper-case letter is left. |
| Text.LowerContains | app.py:75 | Matching after lower-casing is case-insensitive: any occurrence of a pattern is still found once both are lower-cased. |
| Text.Contains | app.py:113-117 | The `in` operator: the left-to-right window scan. It has no ensures; `ContainsIff` relates it to occurrence at an index. |
| Text.ContainsIff | app.py:113-117 | The `in` scan succeeds exactly when the pattern occupies some window of the text (both directions). |
| Text.ContainsAt | app.py:113-117 | A pattern occupying a window is found by the scan. |
| Text.ContainsTransitive | app.py:113-117 | Whatever a contained substring contains, the text contains. |
| Text.ContainsHead | app.py:113-117 | A non-empty pattern is only found where its first character occurs. |
| DisputeOptions.MentionsFraud | app.py:113 | The fraud test `"fraud" in r or "fraudulent" in r`, shared by app.py:128. It has no ensures; `FraudKeywordSuffices` and `AvailableOptions` state its role. |
| DisputeOptions.MentionsGeneral | app.py:115 | The general test `"general" in r or "unrecognized" in r`, shared by app.py:132. It has no ensures; `AvailableOptions` and `RecommendationByKeyword` state its role. |
| DisputeOptions.MentionsCredit | app.py:117 | The credit test on "credit_not_processed", "credit not processed", "duplicated" and "duplicate", shared by app.py:130. It has no ensures; `DuplicateKeywordSuffices` and `AvailableOptions` state its role. |
| DisputeOptions.FraudKeywordSuffices | app.py:113 | The "fraudulent" test is subsumed by the "fraud" test (iff). |
| DisputeOptions.DuplicateKeywordSuffices | app.py:117 | The "duplicated" test is subsumed by the "duplicate" test (iff). |
| DisputeOptions.AvailableOptions | app.py:112-121 | Fraudulent list iff a fraud keyword. Credit list iff a credit keyword with no fraud or general keyword. General list in every other case, unmatched and empty reasons included. |
| DisputeOptions.OptionsByKeyword | app.py:112-121 | The option list in terms of the shortest deciding keywords: "fraud"; then "general"/"unrecognized"; then "credit_not_processed"/"credit not processed"/"duplicate"; otherwise general. |
| DisputeOptions.RecommendationByKeyword | app.py:127-136 | Rightful cardholder for "fraud". Non-refundable for a credit keyword, even alongside "general". Received product for a general keyword alone. "The cardholder withdrew the dispute" otherwise. |
| DisputeOptions.RecommendedOption | app.py:127-136 | `get_recommended_option`: fraud, then credit, then general keywords, else the first offered option ("Other" for an empty list). It has no ensures; its contract is stated by `RecommendationByKeyword` and `RecommendationIsAvailable`. |
| DisputeOptions.RecommendationIsAvailable | app.py:124-138 | For every reason, the offered list is non-empty and the recommendation is one of its entries, never "Other". |
| DisputeOptions.FraudInAnyCasing | app.py:73-136 | End to end: a reason column that contains "fraud" in any casing gets the fraudulent list and the rightful-cardholder response. |
| DisputeOptions.FraudulentTransactionScenario | app.py:73-136 | A dispute whose reason column reads "Fraudulent Transaction" gets the fraudulent list and the rightful-cardholder response. |
| DisputeOptions.CreditNotProcessedScenario | app.py:112-136 | "credit not processed" gets the seven-entry list and the non-refundable response. |
| DisputeOptions.EmptyReasonScenario | app.py:73-136 | A dispute without the reason column has the reason "", and so gets the general list and "The cardholder withdrew the dispute". |
| DisputeOptions.ResponseChoices | app.py:141-145 | The drop-down entries: "Use recommended" followed by the offered options. It has no ensures; `SelectionIsAvailable` and `ExactlyOneMarked` take their choice from it. |
| DisputeOptions.SelectedOption | app.py:147-151 | The selected response is the recommendation for "Use recommended" and the choice itself otherwise. It has no ensures; `SelectionIsAvailable` states its contract. |
| DisputeOptions.SelectionIsAvailable | app.py:140-151 | Every drop-down choice selects an offered option: "Use recommended" selects the recommendation, and any other choice selects itself. |
| DisputeOptions.OptionLine | app.py:157-160 | The marked line `● **option** ✓` for the selected option and `○ option` for any other. It has no ensures; `RenderOptions` and `MarkedCountOfRendering` state its contract. |
| DisputeOptions.RenderOptions | app.py:155-160 | One line per offered option, in order, with the marked form for the selected option and the open form otherwise. A line is marked iff its option is the selected one. |
| DisputeOptions.MarkedCountOfRendering | app.py:155-160 | Over distinct options, the rendering marks exactly one line if the selection is listed and none otherwise. |
| DisputeOptions.ExactlyOneMarked | app.py:138-160 | For every reason and every drop-down choice, exactly one rendered line is marked. |
| EvidenceNarrative.Narrative | app.py:182-186 | The template with the three fields filled in. It has no ensures; `NarrativeFields` and `NarrativeMentions` state its contract. |
| EvidenceNarrative.NarrativeFields | app.py:180-186 | The draft is the fixed text verbatim, with each of the three fields at its own position. |
| EvidenceNarrative.FieldsInPlace | app.py:182-186 | Where each of the seven pieces of the template's concatenation sits. |
| EvidenceNarrative.NarrativeMentions | app.py:180-186 | Each substituted field occurs in the draft. |
| EvidenceNarrative.FieldsFound | app.py:182-186 | Each field of a seven-piece concatenation is found by the `in` scan. |
| EvidenceNarrative.DraftDescription | app.py:167-186 | The draft uses the invoice value of each present column and the bracketed placeholder of each missing one, and contains the value or placeholder used. |
| TwilioService.PadDigits | services/twilio_service.py:41 | Each numeric date field is exactly its width in decimal digits. |
| TwilioService.DigitsRoundTrip | services/twilio_service.py:41 | Reading the zero-padded digits back gives the number whenever it fits the width. |
| TwilioService.DateLayout | services/twilio_service.py:41 | In a date text, the six fields and five separators sit at fixed offsets of a 19-character layout. |
| TwilioService.FormatDate | services/twilio_service.py:41 | `strftime('%Y-%m-%d %H:%M:%S')`. It has no ensures; `FormatDateRoundTrip` states its contract. |
| TwilioService.FormatDateRoundTrip | services/twilio_service.py:41 | The Date text has 19 characters, separators at 4, 7, 10, 13 and 16, and parses back to the send time exactly. |
| TwilioService.GetMessagesForNumber | services/twilio_service.py:28-50 | A failed listing gives no records. So does a message without a send time, which ends in the handler. Otherwise there is one record per message, in order. |
| TwilioService.RecordOf | services/twilio_service.py:40-45 | The record of one dated message. It has no ensures; `RecordFaithful` states its contract. |
| TwilioService.RecordFaithful | services/twilio_service.py:38-45 | A record keeps the SID, status and body unchanged, and its Date text reads back to the send time. |
| TwilioService.SidDisplay | services/twilio_service.py:78 | A SID of at most 20 characters is shown whole. A longer one is shown as its first 20 characters plus "..." (23 characters). |
| TwilioService.TableRow | services/twilio_service.py:77-81 | The table row of one record: date, shown SID, status and message. It has no ensures; `CreateMessagesReport` states its contract. |
| TwilioService.CreateMessagesReport | services/twilio_service.py:52-106 | Title, spacer, number and count, spacer; then the note when there are no records, or a spacer and a table. The table has the header row, then one row per record in order, with 4 cells per row and SID cells of at most 23 characters. |
| AiService.RowLine | services/ai_service.py:39-42 | The line of one row. It has no ensures; `RowLineFields` states its contract. |
| AiService.RowLineFields | services/ai_service.py:37-42 | A row's line is date, the separator, status, the separator again and the first min(500, n) characters of the body, with "" for a missing field. |
| Wrappers.Option.GetOr | services/ai_service.py:39-41 | The `x or ""` fallback: the value when present, the default otherwise. It has no ensures; `RowLineFields` states the lines built with it. |
| AiService.RowLines | services/ai_service.py:37-42 | The `lines` list: one line per row, in order. It has no ensures; `FlattenRows` and `BuildPrompt` are proved against it. |
| AiService.FlattenRows | services/ai_service.py:37-42 | One line per row, in row order. |
| Text.Take | services/ai_service.py:42-45 | `s[:n]` has min(len(s), n) elements and is a prefix of s. |
| Text.SplitJoin | services/ai_service.py:45 | Splitting a newline join of newline-free parts gives the parts back. |
| Text.SplitFreePrefix | services/ai_service.py:45 | Splitting a separator-free prefix followed by more text extends the first piece. |
| AiService.PromptContent | services/ai_service.py:45 | The first 200 lines, newline-joined. It has no ensures; `PromptContentLines` states its contract. |
| AiService.PromptContentLines | services/ai_service.py:44-45 | When no line contains a newline and there is at least one line, the prompt's message block splits back into exactly the first min(200, n) lines. |
| AiService.Prompt | services/ai_service.py:48-57 | The fixed instructions, the message block and a final newline. It has no ensures; `BuildPrompt` and `SummarizeMessages` state the prompt in its terms. |
| AiService.BuildPrompt | services/ai_service.py:37-57 | The prompt is the fixed instructions around the newline join of the first 200 row lines. |
| Text.IsSpace | services/ai_service.py:87-88 | The `str.isspace` set that `strip()` removes, listed in full. It has no ensures; `TrimStart`, `TrimEnd`, `Strip` and `StripWindow` are stated in its terms. |
| Text.TrimStart | services/ai_service.py:87-88 | Left strip removes a leading run of white space, and only that. |
| Text.TrimEnd | services/ai_service.py:87-88 | Right strip removes a trailing run of white space, and only that. |
| Text.Strip | services/ai_service.py:87-88 | The result has no white space at either end, and is empty exactly when the input is blank. |
| Text.StripWindow | services/ai_service.py:87-88 | The result is the window of the input between a leading and a trailing run of white space. |
| Text.StripStripped | services/ai_service.py:67 | Stripping an already stripped text changes nothing. |
| AiService.PartsOf | services/ai_service.py:82-83 | The parts of a candidate, or none when it has no content. It has no ensures; `CandidateTexts` and `CollectedTexts` use it. |
| AiService.HasText | services/ai_service.py:87 | The test `isinstance(txt, str) and txt.strip()`: a string text that is not blank. It has no ensures; `PartTextEmpty` relates it to what a part contributes. |
| AiService.PartText | services/ai_service.py:86-88 | What one part contributes: its stripped text when that is non-empty, nothing otherwise. It has no ensures; `PartTextEmpty` states its contract. |
| AiService.PartTexts | services/ai_service.py:85-88 | The texts of one candidate's parts, in order. It has no ensures; `PartTextsWellFormed`, `PartTextsEmpty` and `CandidateTexts` state its contract. |
| AiService.CollectedTexts | services/ai_service.py:81-88 | The texts of all candidates, candidate by candidate. It has no ensures; `CollectedTextsWellFormed`, `CollectedTextsEmpty` and `ExtractText` state its contract. |
| AiService.PartTextEmpty | services/ai_service.py:86-88 | A part contributes nothing iff it has no string text or its text is blank. |
| AiService.CandidateTexts | services/ai_service.py:85-88 | The stripped, non-blank texts of one candidate's parts, in part order. |
| AiService.PartTextsWellFormed | services/ai_service.py:85-88 | Every text collected from parts is non-empty and stripped. |
| AiService.CollectedTextsWellFormed | services/ai_service.py:81-88 | Every collected text, over all candidates, is non-empty and stripped. |
| AiService.PartTextsEmpty | services/ai_service.py:85-88 | A candidate contributes nothing iff none of its parts has a non-blank text. |
| AiService.CollectedTextsEmpty | services/ai_service.py:79-89 | Nothing is collected iff no part of any candidate has a non-blank text. |
| Text.Join | services/ai_service.py:89-90 | `sep.join(parts)`. It has no ensures; `SplitJoin`, `JoinEnds` and `JoinStripped` state its contract. |
| Text.JoinEnds | services/ai_service.py:89-90 | Joining non-empty parts gives "" iff there are no parts, and keeps the first and last characters. |
| Text.JoinStripped | services/ai_service.py:89-90 | Joining stripped non-empty parts gives a stripped text. |
| AiService.CollectedJoin | services/ai_service.py:89-94 | The joined collection is stripped, and is "" exactly when no part has text. |
| AiService.ExtractText | services/ai_service.py:72-94 | The text is the newline join of the collected texts in candidate-then-part order. It is stripped, and it is "" exactly when no part has a non-blank text. |
| AiService.ExtractedSummary | services/ai_service.py:65-67 | The extracted text is its own strip, and it is empty exactly when nothing was collected. |
| AiService.SummaryOfResponse | services/ai_service.py:65-67 | For a returned response, the summary is the joined collected texts, or the not-generated text when there are none, and is never empty. |
| AiService.SummarizeMessages | services/ai_service.py:31-70 | Covers every outcome; the summary is never empty. No rows: the no-messages text, and the model is not consulted. Otherwise: the prompt holds the first 200 lines. A raised call gives the failure text. Otherwise the joined texts, or the not-generated text when there are none. |

## Left out

- The Streamlit page is not modelled: layout, session state, the selectbox and number inputs, the buttons and downloads and the text area. The drop-down choice is a parameter.
- db/* and utils/* (database access, constants, the PDF evidence generator) are not part of this model.
- The Twilio client is not modelled: its credentials, the look-back window (the caller's `days_back`, 1 to 365 days with 90 by default, counted back from the clock), the list call, and the error print in its handler. The call's outcome is the `Listing` parameter.
- reportlab is not modelled: styles, column widths, table styling, the byte buffer and the rendering. The report is the ordered list of elements handed to the renderer, and the `<b>`/`<br/>` markup of the information paragraph is reduced to its two values.
- The Gemini client is not modelled: its configuration, the API key check, the model call and every log line. The call's outcome is the `Generation` parameter. An exception inside `_extract_text` is caught there and gives "". The model has no such path, because its candidates and parts are plain data.
- The product-type display and the other sections of the page are outside the named core.
- DisputeOptions.DisputeReason: lower-cases ASCII letters only. For the keyword tests this is exact: the only non-ASCII characters that lower-case to ASCII are U+0130, which gives "i" plus a combining dot, and the Kelvin sign, which gives "k". No keyword contains "k", and every "i" in a keyword is followed by an ASCII letter. The stated length equality does not hold in Python for U+0130.
- Text.Lower: the same ASCII-only restriction as DisputeReason, for the same reason.
- TwilioService.FormatDateRoundTrip: models `%Y` as four digits, zero-padded. Some C libraries do not pad years below 1000.
- TwilioService.FormatDateRoundTrip: day numbers are bounded by 31 for every month, and per-month calendar validity is not modelled.
- Pandas NaN cells, which `str()` turns into "nan", and non-text cell values are not modelled. Every cell is text or missing.
- TwilioService.GetMessagesForNumber: the only failure modelled inside the loop is a missing send time. Other attribute errors on a message object are not modelled.
- AiService.PromptContentLines: the line-count property needs newline-free lines. A message body that contains newlines puts more than one physical line into the prompt for its row, so the prompt can then hold more than 200 physical lines. The 200 cap counts rows, as the code does.
