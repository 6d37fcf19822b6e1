/** The "Why should you win this dispute?" section of the dashboard (app.py):
    the dispute reason is lower-cased, matched against fixed keywords, and
    mapped to a fixed list of response options and a recommended response;
    the caseworker may override the recommendation with any listed option,
    and the list is rendered with exactly one entry marked as selected. */
module DisputeOptions {
  import opened Text

  // ---------------------------------------------------------------------------
  // The option catalog
  // ---------------------------------------------------------------------------

  const Withdrew := "The cardholder withdrew the dispute"
  const Refunded := "The cardholder was refunded"
  const RightfulCardholder := "The purchase was made by the rightful cardholder"
  const NonRefundable := "The transaction was non-refundable"
  const PastReturnPeriod := "The dispute was made past the return or cancellation period of your terms"
  const CreditOrVoucher := "The cardholder received a credit or voucher"
  const GovernmentOrder := "The product, service, event or booking was cancelled or delayed due to a government order (COVID-19)"
  const ReceivedProduct := "The cardholder received the product or service"
  const UniquePurchase := "The purchase is unique"
  const OtherOption := "Other"

  const FraudulentOptions: seq<string> :=
    [Withdrew, Refunded, RightfulCardholder, OtherOption]

  const GeneralOptions: seq<string> :=
    [Withdrew, Refunded, NonRefundable, PastReturnPeriod, CreditOrVoucher,
     GovernmentOrder, ReceivedProduct, RightfulCardholder, UniquePurchase, OtherOption]

  const CreditNotProcessedOptions: seq<string> :=
    [Withdrew, Refunded, NonRefundable, PastReturnPeriod, CreditOrVoucher,
     GovernmentOrder, OtherOption]

  predicate Distinct(s: seq<string>) {
    forall i, j :: 0 <= i < j < |s| ==> s[i] != s[j]
  }

  /** Each list has distinct entries and ends with "Other"; the fraudulent and
      credit-not-processed lists open with the same two entries as the general
      list; every list is non-empty. */
  lemma CatalogWellFormed()
    ensures |FraudulentOptions| == 4 && |GeneralOptions| == 10 && |CreditNotProcessedOptions| == 7
    ensures Distinct(FraudulentOptions) && Distinct(GeneralOptions) && Distinct(CreditNotProcessedOptions)
    ensures FraudulentOptions[3] == GeneralOptions[9] == CreditNotProcessedOptions[6] == OtherOption
    ensures FraudulentOptions[..2] == GeneralOptions[..2] == CreditNotProcessedOptions[..2]
            == [Withdrew, Refunded]
  {
  }

  // ---------------------------------------------------------------------------
  // The reason text and its keywords
  // ---------------------------------------------------------------------------

  const ReasonColumn := "ExternalPaymentDisputeReason"

  /** The reason text the section matches on: the dispute's reason column,
      lower-cased, or "" when the column is missing. */
  function DisputeReason(dispute: map<string, string>): (r: string)
    ensures ReasonColumn !in dispute ==> r == ""
    ensures ReasonColumn in dispute ==> r == Lower(dispute[ReasonColumn])
    ensures ReasonColumn in dispute ==> |r| == |dispute[ReasonColumn]|
    ensures forall i :: 0 <= i < |r| ==> !IsUpper(r[i])
  {
    if ReasonColumn in dispute then Lower(dispute[ReasonColumn]) else ""
  }

  predicate MentionsFraud(reason: string) {
    Contains(reason, "fraud") || Contains(reason, "fraudulent")
  }

  predicate MentionsGeneral(reason: string) {
    Contains(reason, "general") || Contains(reason, "unrecognized")
  }

  predicate MentionsCredit(reason: string) {
    || Contains(reason, "credit_not_processed")
    || Contains(reason, "credit not processed")
    || Contains(reason, "duplicated")
    || Contains(reason, "duplicate")
  }

  /** "fraudulent" adds nothing to the fraud test: it contains "fraud". */
  lemma FraudKeywordSuffices(reason: string)
    ensures MentionsFraud(reason) <==> Contains(reason, "fraud")
  {
    if Contains(reason, "fraudulent") {
      ContainsAt("fraudulent", "fraud", 0);
      ContainsTransitive(reason, "fraudulent", "fraud");
    }
  }

  /** "duplicated" adds nothing to the credit test: it contains "duplicate". */
  lemma DuplicateKeywordSuffices(reason: string)
    ensures MentionsCredit(reason) <==>
              (|| Contains(reason, "credit_not_processed")
               || Contains(reason, "credit not processed")
               || Contains(reason, "duplicate"))
  {
    if Contains(reason, "duplicated") {
      ContainsAt("duplicated", "duplicate", 0);
      ContainsTransitive(reason, "duplicated", "duplicate");
    }
  }

  // ---------------------------------------------------------------------------
  // Options and recommendation
  // ---------------------------------------------------------------------------

  /** The options offered for a (lower-cased) reason: fraud keywords first,
      then general keywords, then credit keywords; anything else, "" included,
      gets the general list. */
  function AvailableOptions(reason: string): (r: seq<string>)
    ensures r == FraudulentOptions <==> MentionsFraud(reason)
    ensures r == CreditNotProcessedOptions <==>
              !MentionsFraud(reason) && !MentionsGeneral(reason) && MentionsCredit(reason)
    ensures r == GeneralOptions <==>
              !MentionsFraud(reason) && (MentionsGeneral(reason) || !MentionsCredit(reason))
  {
    if MentionsFraud(reason) then FraudulentOptions
    else if MentionsGeneral(reason) then GeneralOptions
    else if MentionsCredit(reason) then CreditNotProcessedOptions
    else GeneralOptions
  }

  /** The recommended response. It tests the credit keywords BEFORE the
      general ones, unlike AvailableOptions, and falls back to the first
      offered option. */
  function RecommendedOption(reason: string, options: seq<string>): string
  {
    if MentionsFraud(reason) then RightfulCardholder
    else if MentionsCredit(reason) then NonRefundable
    else if MentionsGeneral(reason) then ReceivedProduct
    else if options != [] then options[0]
    else OtherOption
  }

  /** The option list in terms of the shortest keywords that decide it. */
  lemma OptionsByKeyword(reason: string)
    ensures Contains(reason, "fraud") ==> AvailableOptions(reason) == FraudulentOptions
    ensures !Contains(reason, "fraud") && MentionsGeneral(reason) ==>
              AvailableOptions(reason) == GeneralOptions
    ensures !Contains(reason, "fraud") && !MentionsGeneral(reason) &&
            (|| Contains(reason, "credit_not_processed")
             || Contains(reason, "credit not processed")
             || Contains(reason, "duplicate")) ==>
              AvailableOptions(reason) == CreditNotProcessedOptions
    ensures !Contains(reason, "fraud") && !MentionsGeneral(reason) && !MentionsCredit(reason) ==>
              AvailableOptions(reason) == GeneralOptions
  {
    FraudKeywordSuffices(reason);
    DuplicateKeywordSuffices(reason);
  }

  /** The recommendation in terms of the shortest keywords that decide it.
      A reason with a credit keyword and a general keyword gets the
      credit-not-processed recommendation; an unmatched reason, "" included,
      gets the first general option, "The cardholder withdrew the dispute". */
  lemma RecommendationByKeyword(reason: string)
    ensures Contains(reason, "fraud") ==>
              RecommendedOption(reason, AvailableOptions(reason)) == RightfulCardholder
    ensures !Contains(reason, "fraud") &&
            (|| Contains(reason, "credit_not_processed")
             || Contains(reason, "credit not processed")
             || Contains(reason, "duplicate")) ==>
              RecommendedOption(reason, AvailableOptions(reason)) == NonRefundable
    ensures !Contains(reason, "fraud") && !MentionsCredit(reason) && MentionsGeneral(reason) ==>
              RecommendedOption(reason, AvailableOptions(reason)) == ReceivedProduct
    ensures !Contains(reason, "fraud") && !MentionsCredit(reason) && !MentionsGeneral(reason) ==>
              RecommendedOption(reason, AvailableOptions(reason)) == Withdrew
  {
    FraudKeywordSuffices(reason);
    DuplicateKeywordSuffices(reason);
  }

  /** Whatever the reason, the recommendation is one of the offered options,
      although the two functions test the keywords in different orders; the
      offered list is never empty, so the "Other" fallback is never taken. */
  lemma RecommendationIsAvailable(reason: string)
    ensures AvailableOptions(reason) != []
    ensures RecommendedOption(reason, AvailableOptions(reason)) in AvailableOptions(reason)
    ensures RecommendedOption(reason, AvailableOptions(reason)) != OtherOption
  {
  }

  /** End to end: a reason column holding "fraud" in any casing gets the
      fraudulent list and the rightful-cardholder response. */
  lemma FraudInAnyCasing(dispute: map<string, string>, spelling: string)
    requires ReasonColumn in dispute
    requires Lower(spelling) == "fraud"
    requires Contains(dispute[ReasonColumn], spelling)
    ensures AvailableOptions(DisputeReason(dispute)) == FraudulentOptions
    ensures RecommendedOption(DisputeReason(dispute), AvailableOptions(DisputeReason(dispute))) == RightfulCardholder
  {
    LowerContains(dispute[ReasonColumn], spelling);
    OptionsByKeyword(DisputeReason(dispute));
    RecommendationByKeyword(DisputeReason(dispute));
  }

  /** A dispute whose reason column reads "Fraudulent Transaction" gets the
      fraudulent list and the rightful-cardholder response. */
  lemma FraudulentTransactionScenario(dispute: map<string, string>)
    requires dispute == map[ReasonColumn := "Fraudulent Transaction"]
    ensures AvailableOptions(DisputeReason(dispute)) == FraudulentOptions
    ensures RecommendedOption(DisputeReason(dispute), AvailableOptions(DisputeReason(dispute))) == RightfulCardholder
  {
    var column := dispute[ReasonColumn];
    assert column[..5] == "Fraud";
    ContainsAt(column, "Fraud", 0);
    assert Lower("Fraud") == "fraud";
    FraudInAnyCasing(dispute, "Fraud");
  }

  /** "credit not processed" gets the seven credit-not-processed options and
      the non-refundable response. */
  lemma CreditNotProcessedScenario(reason: string)
    requires reason == "credit not processed"
    ensures AvailableOptions(reason) == CreditNotProcessedOptions
    ensures RecommendedOption(reason, AvailableOptions(reason)) == NonRefundable
  {
    assert MentionsCredit(reason) by { ContainsAt(reason, "credit not processed", 0); }
    assert 'f' !in reason && 'g' !in reason && 'u' !in reason;
    assert !MentionsFraud(reason) by {
      if Contains(reason, "fraud") { ContainsHead(reason, "fraud"); }
      if Contains(reason, "fraudulent") { ContainsHead(reason, "fraudulent"); }
    }
    assert !MentionsGeneral(reason) by {
      if Contains(reason, "general") { ContainsHead(reason, "general"); }
      if Contains(reason, "unrecognized") { ContainsHead(reason, "unrecognized"); }
    }
  }

  /** A dispute without a reason column has the reason "", so it gets the
      general list and, by the fallback, its first entry as the
      recommendation. */
  lemma EmptyReasonScenario(dispute: map<string, string>)
    requires ReasonColumn !in dispute
    ensures DisputeReason(dispute) == ""
    ensures AvailableOptions(DisputeReason(dispute)) == GeneralOptions
    ensures RecommendedOption(DisputeReason(dispute), AvailableOptions(DisputeReason(dispute))) == Withdrew
  {
  }

  // ---------------------------------------------------------------------------
  // Override and selection
  // ---------------------------------------------------------------------------

  const UseRecommended := "Use recommended"

  /** The entries of the response drop-down. */
  function ResponseChoices(options: seq<string>): seq<string> {
    [UseRecommended] + options
  }

  /** The response in force: the recommendation unless overridden. */
  function SelectedOption(choice: string, recommended: string): string {
    if choice == UseRecommended then recommended else choice
  }

  /** Any drop-down choice selects one of the offered options: the
      recommendation for "Use recommended", the choice itself otherwise. */
  lemma SelectionIsAvailable(reason: string, choice: string)
    requires choice in ResponseChoices(AvailableOptions(reason))
    ensures var options := AvailableOptions(reason);
            var selected := SelectedOption(choice, RecommendedOption(reason, options));
            && selected in options
            && (choice == UseRecommended ==> selected == RecommendedOption(reason, options))
            && (choice != UseRecommended ==> selected == choice)
  {
    RecommendationIsAvailable(reason);
  }

  /** The rendered line of one option: filled bullet, bold and a check mark
      for the selected option, an open bullet for the others. */
  function OptionLine(option: string, selected: string): string {
    if option == selected then "● **" + option + "** ✓" else "○ " + option
  }

  predicate IsMarked(line: string) {
    |line| > 0 && line[0] == '●'
  }

  /** Renders the option list in order, marking the selected option. */
  method RenderOptions(options: seq<string>, selected: string) returns (lines: seq<string>)
    ensures |lines| == |options|
    ensures forall i :: 0 <= i < |options| ==> lines[i] == OptionLine(options[i], selected)
    ensures forall i :: 0 <= i < |options| ==> (IsMarked(lines[i]) <==> options[i] == selected)
  {
    lines := [];
    for k := 0 to |options|
      invariant |lines| == k
      invariant forall i :: 0 <= i < k ==> lines[i] == OptionLine(options[i], selected)
      invariant forall i :: 0 <= i < k ==> (IsMarked(lines[i]) <==> options[i] == selected)
    {
      var option := options[k];
      if option == selected {
        lines := lines + ["● **" + option + "** ✓"];
      } else {
        lines := lines + ["○ " + option];
      }
    }
  }

  /** How many rendered lines carry the selection mark. */
  function MarkedCount(lines: seq<string>): nat {
    if lines == [] then 0
    else (if IsMarked(lines[0]) then 1 else 0) + MarkedCount(lines[1..])
  }

  /** Over a list of distinct options, the rendering marks exactly one line
      when the selection is listed and none otherwise. */
  lemma {:induction false} MarkedCountOfRendering(options: seq<string>, selected: string, lines: seq<string>)
    requires Distinct(options)
    requires |lines| == |options|
    requires forall i :: 0 <= i < |options| ==> lines[i] == OptionLine(options[i], selected)
    ensures MarkedCount(lines) == if selected in options then 1 else 0
    decreases |options|
  {
    if options != [] {
      assert IsMarked(lines[0]) <==> options[0] == selected;
      MarkedCountOfRendering(options[1..], selected, lines[1..]);
      assert options == [options[0]] + options[1..];
      assert options[0] == selected ==> selected !in options[1..];
    }
  }

  /** The section as a whole: whatever the reason and whatever the drop-down
      choice, the rendered option list marks exactly one entry. */
  lemma ExactlyOneMarked(reason: string, choice: string, lines: seq<string>)
    requires choice in ResponseChoices(AvailableOptions(reason))
    requires var options := AvailableOptions(reason);
             var selected := SelectedOption(choice, RecommendedOption(reason, options));
             && |lines| == |options|
             && forall i :: 0 <= i < |options| ==> lines[i] == OptionLine(options[i], selected)
    ensures MarkedCount(lines) == 1
  {
    var options := AvailableOptions(reason);
    CatalogWellFormed();
    SelectionIsAvailable(reason, choice);
    MarkedCountOfRendering(options, SelectedOption(choice, RecommendedOption(reason, options)), lines);
  }
}
