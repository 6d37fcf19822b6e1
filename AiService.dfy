/** The text handling of the message summarizer (services/ai_service.py):
    the messages frame is flattened into one "date | status | body" line per
    row, the first 200 lines go into a fixed prompt, and the summary is the
    stripped, non-blank text collected from the model's candidates and parts.
    The model call itself is an input: what it returned, or that it raised. */
module AiService {
  import opened Wrappers
  import opened Text

  const NoMessagesText := "No customer messages available for summary."
  const NotGeneratedText := "Summary could not be generated."
  const FailedText := "Summary could not be generated. Check ai_service.log for details."

  /** At most this many characters of a message body go into its line. */
  const BodyLimit := 500
  /** At most this many lines go into the prompt. */
  const LineCap := 200

  // ---------------------------------------------------------------------------
  // Flattening the messages into prompt lines
  // ---------------------------------------------------------------------------

  /** A row of the messages frame; a field is None when the column is
      missing or its value is None. */
  datatype Row = Row(date: Option<string>, status: Option<string>, message: Option<string>)

  /** The line for one row; a missing or empty field becomes "". */
  function RowLine(row: Row): string {
    row.date.GetOr("") + " | " + row.status.GetOr("") + " | " + Take(row.message.GetOr(""), BodyLimit)
  }

  /** A row's line holds its date, its status and at most the first 500
      characters of its body, separated by " | ". */
  lemma RowLineFields(row: Row)
    ensures var d, s, b := row.date.GetOr(""), row.status.GetOr(""), row.message.GetOr("");
            var line := RowLine(row);
            && |line| == |d| + |s| + 6 + Min(|b|, BodyLimit)
            && line[..|d|] == d
            && line[|d|..|d| + 3] == " | "
            && line[|d| + 3..|d| + 3 + |s|] == s
            && line[|d| + 3 + |s|..|d| + 6 + |s|] == " | "
            && line[|d| + 6 + |s|..] == b[..Min(|b|, BodyLimit)]
  {
  }

  function RowLines(rows: seq<Row>): seq<string> {
    seq(|rows|, i requires 0 <= i < |rows| => RowLine(rows[i]))
  }

  /** One line per row, in row order. */
  method FlattenRows(rows: seq<Row>) returns (lines: seq<string>)
    ensures |lines| == |rows|
    ensures forall i :: 0 <= i < |rows| ==> lines[i] == RowLine(rows[i])
    ensures lines == RowLines(rows)
  {
    lines := [];
    for k := 0 to |rows|
      invariant |lines| == k
      invariant forall i :: 0 <= i < k ==> lines[i] == RowLine(rows[i])
    {
      var row := rows[k];
      var date := row.date.GetOr("");
      var status := row.status.GetOr("");
      var body := row.message.GetOr("");
      lines := lines + [date + " | " + status + " | " + Take(body, BodyLimit)];
    }
  }

  /** The message block of the prompt: the first 200 lines, newline-joined. */
  function PromptContent(lines: seq<string>): string {
    Join(Take(lines, LineCap), '\n')
  }

  /** When no line holds a newline, the message block splits back into
      exactly the first min(200, n) lines. */
  lemma PromptContentLines(lines: seq<string>)
    requires lines != []
    requires forall i :: 0 <= i < |lines| ==> '\n' !in lines[i]
    ensures Split(PromptContent(lines), '\n') == lines[..Min(LineCap, |lines|)]
  {
    SplitJoin(Take(lines, LineCap), '\n');
  }

  const PromptHead := "\nYou assist with payment dispute evidence. Summarize the following SMS messages clearly and neutrally.\n- 8–12 sentences, concise and factual\n- Note key customer intents, confirmations, refund requests, and outcomes\n- Include timeline anchors (dates) when relevant\n- Avoid speculation or sensitive data; only use what is present\n\nMessages:\n"

  function Prompt(content: string): string {
    PromptHead + content + "\n"
  }

  // ---------------------------------------------------------------------------
  // Collecting the response text
  // ---------------------------------------------------------------------------

  /** A part of a candidate; `text` is None unless the part has a string text. */
  datatype Part = Part(text: Option<string>)

  /** A candidate; `parts` is None when it has no (truthy) content. */
  datatype Candidate = Candidate(parts: Option<seq<Part>>)

  datatype Response = Response(candidates: seq<Candidate>)

  /** What the model call did with the prompt. */
  datatype Generation = Generated(response: Response) | Raised

  function PartsOf(c: Candidate): seq<Part> {
    c.parts.GetOr([])
  }

  /** The part has a string text that is not blank. */
  predicate HasText(p: Part) {
    p.text.Some? && !IsBlank(p.text.value)
  }

  /** What one part contributes: its stripped text, unless that is empty. */
  function PartText(p: Part): seq<string> {
    if p.text.Some? && Strip(p.text.value) != "" then [Strip(p.text.value)] else []
  }

  /** The texts collected from a candidate's parts, in order. */
  function PartTexts(parts: seq<Part>): seq<string> {
    if parts == [] then [] else PartTexts(parts[..|parts| - 1]) + PartText(parts[|parts| - 1])
  }

  /** The texts collected from all candidates, candidate by candidate. */
  function CollectedTexts(cands: seq<Candidate>): seq<string> {
    if cands == [] then []
    else CollectedTexts(cands[..|cands| - 1]) + PartTexts(PartsOf(cands[|cands| - 1]))
  }

  lemma PartTextsStep(parts: seq<Part>, j: nat)
    requires j < |parts|
    ensures PartTexts(parts[..j + 1]) == PartTexts(parts[..j]) + PartText(parts[j])
  {
    assert parts[..j + 1][..j] == parts[..j];
  }

  lemma CollectedTextsStep(cands: seq<Candidate>, i: nat)
    requires i < |cands|
    ensures CollectedTexts(cands[..i + 1]) == CollectedTexts(cands[..i]) + PartTexts(PartsOf(cands[i]))
  {
    assert cands[..i + 1][..i] == cands[..i];
  }

  /** Every collected text is non-empty and stripped. */
  lemma {:induction false} PartTextsWellFormed(parts: seq<Part>)
    ensures forall k :: 0 <= k < |PartTexts(parts)| ==> PartTexts(parts)[k] != "" && IsStripped(PartTexts(parts)[k])
    decreases |parts|
  {
    if parts != [] {
      PartTextsWellFormed(parts[..|parts| - 1]);
    }
  }

  /** Every collected text is non-empty and stripped. */
  lemma {:induction false} CollectedTextsWellFormed(cands: seq<Candidate>)
    ensures forall k :: 0 <= k < |CollectedTexts(cands)| ==>
              CollectedTexts(cands)[k] != "" && IsStripped(CollectedTexts(cands)[k])
    decreases |cands|
  {
    if cands != [] {
      CollectedTextsWellFormed(cands[..|cands| - 1]);
      PartTextsWellFormed(PartsOf(cands[|cands| - 1]));
    }
  }

  /** No part of any candidate has a non-blank text. */
  predicate NoTextIn(cands: seq<Candidate>) {
    forall i, j :: 0 <= i < |cands| && 0 <= j < |PartsOf(cands[i])| ==> !HasText(PartsOf(cands[i])[j])
  }

  /** A part contributes nothing exactly when it has no non-blank text. */
  lemma PartTextEmpty(p: Part)
    ensures PartText(p) == [] <==> !HasText(p)
  {
    if p.text.Some? {
      assert Strip(p.text.value) == [] <==> IsBlank(p.text.value);
    }
  }

  /** A candidate contributes nothing exactly when none of its parts has text. */
  lemma {:induction false} PartTextsEmpty(parts: seq<Part>)
    ensures PartTexts(parts) == [] <==> forall j :: 0 <= j < |parts| ==> !HasText(parts[j])
    decreases |parts|
  {
    if parts != [] {
      var init, last := parts[..|parts| - 1], parts[|parts| - 1];
      PartTextsEmpty(init);
      PartTextEmpty(last);
      assert forall j :: 0 <= j < |init| ==> init[j] == parts[j];
    }
  }

  /** Nothing is collected exactly when no part of any candidate has text. */
  lemma {:induction false} CollectedTextsEmpty(cands: seq<Candidate>)
    ensures CollectedTexts(cands) == [] <==> NoTextIn(cands)
    decreases |cands|
  {
    if cands != [] {
      var init, last := cands[..|cands| - 1], cands[|cands| - 1];
      CollectedTextsEmpty(init);
      PartTextsEmpty(PartsOf(last));
      assert forall i :: 0 <= i < |init| ==> init[i] == cands[i];
      if NoTextIn(init) && PartTexts(PartsOf(last)) == [] {
        forall i, j | 0 <= i < |cands| && 0 <= j < |PartsOf(cands[i])|
          ensures !HasText(PartsOf(cands[i])[j])
        {
          if i < |init| {
            assert cands[i] == init[i];
          }
        }
      }
      if NoTextIn(cands) {
        forall j | 0 <= j < |PartsOf(last)|
          ensures !HasText(PartsOf(last)[j])
        {
        }
      }
    }
  }

  /** The stripped, non-blank texts of one candidate's parts, in order. */
  method CandidateTexts(parts: seq<Part>) returns (texts: seq<string>)
    ensures texts == PartTexts(parts)
  {
    texts := [];
    for j := 0 to |parts|
      invariant texts == PartTexts(parts[..j])
    {
      PartTextsStep(parts, j);
      var txt := parts[j].text;
      if txt.Some? {
        var stripped := Strip(txt.value);
        if stripped != "" {
          texts := texts + [stripped];
        }
      }
    }
    assert parts[..|parts|] == parts;
  }

  /** Collects the stripped, non-blank part texts in candidate-then-part
      order and joins them with newlines; "" when there are none. */
  method ExtractText(response: Response) returns (text: string)
    ensures text == Join(CollectedTexts(response.candidates), '\n')
    ensures text == "" <==> NoTextIn(response.candidates)
    ensures IsStripped(text)
  {
    var cands := response.candidates;
    var collected: seq<string> := [];
    for i := 0 to |cands|
      invariant collected == CollectedTexts(cands[..i])
    {
      CollectedTextsStep(cands, i);
      var texts := CandidateTexts(PartsOf(cands[i]));
      collected := collected + texts;
    }
    assert cands[..|cands|] == cands;
    if collected != [] {
      text := Join(collected, '\n');
    } else {
      text := "";
    }
    CollectedJoin(cands);
  }

  /** The joined collection is stripped, and empty exactly when no part has text. */
  lemma CollectedJoin(cands: seq<Candidate>)
    ensures var text := Join(CollectedTexts(cands), '\n');
            && (text == "" <==> NoTextIn(cands))
            && IsStripped(text)
  {
    CollectedTextsWellFormed(cands);
    JoinEnds(CollectedTexts(cands), '\n');
    JoinStripped(CollectedTexts(cands), '\n');
    CollectedTextsEmpty(cands);
  }

  /** The text extracted from a response is its own strip, and is empty
      exactly when nothing was collected. */
  lemma ExtractedSummary(cands: seq<Candidate>, text: string)
    requires text == Join(CollectedTexts(cands), '\n')
    ensures Strip(text) == text
    ensures Strip(text) == "" <==> CollectedTexts(cands) == []
  {
    CollectedJoin(cands);
    CollectedTextsEmpty(cands);
    StripStripped(text);
  }

  // ---------------------------------------------------------------------------
  // The summary
  // ---------------------------------------------------------------------------

  /** The prompt for a messages frame: the fixed instructions, then the
      first 200 row lines joined by newlines. */
  method BuildPrompt(rows: seq<Row>) returns (prompt: string)
    ensures prompt == Prompt(PromptContent(RowLines(rows)))
  {
    var lines := FlattenRows(rows);
    var content := Join(Take(lines, LineCap), '\n');
    prompt := Prompt(content);
  }

  /** The summary of a response the model returned: the stripped extracted
      text, or the not-generated text when nothing non-blank came back. */
  method SummaryOfResponse(response: Response) returns (summary: string)
    ensures var texts := CollectedTexts(response.candidates);
            summary == if texts != [] then Join(texts, '\n') else NotGeneratedText
    ensures summary != ""
  {
    var text := ExtractText(response);
    ExtractedSummary(response.candidates, text);
    var stripped := Strip(text);
    if stripped != "" {
      summary := stripped;
    } else {
      summary := NotGeneratedText;
    }
  }

  /** Summarizes a messages frame (None for no frame). Returns the summary and
      the prompt sent to the model, None when the model was not consulted. */
  method SummarizeMessages(messages: Option<seq<Row>>, generation: Generation)
    returns (summary: string, prompt: Option<string>)
    ensures messages.None? || messages.value == [] ==>
              summary == NoMessagesText && prompt == None
    ensures messages.Some? && messages.value != [] ==>
              prompt == Some(Prompt(PromptContent(RowLines(messages.value))))
    ensures messages.Some? && messages.value != [] && generation.Raised? ==>
              summary == FailedText
    ensures messages.Some? && messages.value != [] && generation.Generated? ==>
              var texts := CollectedTexts(generation.response.candidates);
              summary == if texts != [] then Join(texts, '\n') else NotGeneratedText
    ensures summary != ""
  {
    if messages.None? || messages.value == [] {
      return NoMessagesText, None;
    }
    var request := BuildPrompt(messages.value);
    prompt := Some(request);
    match generation
    case Raised =>
      summary := FailedText;
    case Generated(response) =>
      summary := SummaryOfResponse(response);
  }
}
