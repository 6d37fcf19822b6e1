/** The initial draft of the "Product or service details" description
    (app.py): a fixed narrative with the invoice's customer name, issue date
    and company name substituted, each replaced by a bracketed placeholder
    when the invoice lacks that column. */
module EvidenceNarrative {
  import opened Text

  const CustomerColumn := "CustomerFullName"
  const IssuedColumn := "IssuedOn"
  const CompanyColumn := "CompanyName"

  const CustomerPlaceholder := "[Customer Name]"
  const DatePlaceholder := "[Invoice Date]"
  const CompanyPlaceholder := "[Company Name]"

  /** The fixed text of the template, in the four pieces between the fields. */
  const Opening := "STAMP is a Real Tax Free service provider that enables eligible non-EU travelers to shop without paying VAT at the point of purchase in participating European stores.\n\nTravelers register with STAMP and accept our Terms & Conditions, which explain that VAT will be charged if the required customs export validation is not completed. This process complies with EU VAT regulations.\n\n"
  const AfterName := " made a one-time purchase using STAMP's service on "
  const AfterDate := " at "
  const Closing := ". The VAT charge for this dispute was applied because no customs validation was received, in line with the agreed terms and legal requirements."

  /** The template with the three fields filled in. */
  function Narrative(customerName: string, issuedDate: string, companyName: string): string {
    Opening + customerName + AfterName + issuedDate + AfterDate + companyName + Closing
  }

  /** The draft is the template verbatim with each field at its place:
      the fixed pieces are untouched and every field appears exactly as given. */
  lemma NarrativeFields(customerName: string, issuedDate: string, companyName: string)
    ensures var r := Narrative(customerName, issuedDate, companyName);
            var name := |Opening|;
            var date := name + |customerName| + |AfterName|;
            var company := date + |issuedDate| + |AfterDate|;
            && |r| == company + |companyName| + |Closing|
            && r[..name] == Opening
            && r[name..name + |customerName|] == customerName
            && r[name + |customerName|..date] == AfterName
            && r[date..date + |issuedDate|] == issuedDate
            && r[date + |issuedDate|..company] == AfterDate
            && r[company..company + |companyName|] == companyName
            && r[company + |companyName|..] == Closing
  {
    FieldsInPlace(Opening, customerName, AfterName, issuedDate, AfterDate, companyName, Closing);
  }

  /** Where each piece of a seven-piece concatenation sits. */
  lemma FieldsInPlace(p0: string, f1: string, p1: string, f2: string, p2: string, f3: string, p3: string)
    ensures var r := p0 + f1 + p1 + f2 + p2 + f3 + p3;
            var i1 := |p0|;
            var i2 := i1 + |f1| + |p1|;
            var i3 := i2 + |f2| + |p2|;
            && |r| == i3 + |f3| + |p3|
            && r[..i1] == p0
            && r[i1..i1 + |f1|] == f1
            && r[i1 + |f1|..i2] == p1
            && r[i2..i2 + |f2|] == f2
            && r[i2 + |f2|..i3] == p2
            && r[i3..i3 + |f3|] == f3
            && r[i3 + |f3|..] == p3
  {
  }

  /** Each of the three fields can be found in the draft. */
  lemma NarrativeMentions(customerName: string, issuedDate: string, companyName: string)
    ensures Contains(Narrative(customerName, issuedDate, companyName), customerName)
    ensures Contains(Narrative(customerName, issuedDate, companyName), issuedDate)
    ensures Contains(Narrative(customerName, issuedDate, companyName), companyName)
  {
    FieldsFound(Opening, customerName, AfterName, issuedDate, AfterDate, companyName, Closing);
  }

  /** Each field of a seven-piece concatenation can be found in it. */
  lemma FieldsFound(p0: string, f1: string, p1: string, f2: string, p2: string, f3: string, p3: string)
    ensures var r := p0 + f1 + p1 + f2 + p2 + f3 + p3;
            Contains(r, f1) && Contains(r, f2) && Contains(r, f3)
  {
    var r := p0 + f1 + p1 + f2 + p2 + f3 + p3;
    FieldsInPlace(p0, f1, p1, f2, p2, f3, p3);
    ContainsAt(r, f1, |p0|);
    ContainsAt(r, f2, |p0| + |f1| + |p1|);
    ContainsAt(r, f3, |p0| + |f1| + |p1| + |f2| + |p2|);
  }

  /** Builds the draft from the invoice's first row (column name to text),
      starting from the placeholders and overwriting each one whose column
      the invoice has. */
  method DraftDescription(invoice: map<string, string>) returns (text: string)
    ensures text == Narrative(
              if CustomerColumn in invoice then invoice[CustomerColumn] else CustomerPlaceholder,
              if IssuedColumn in invoice then invoice[IssuedColumn] else DatePlaceholder,
              if CompanyColumn in invoice then invoice[CompanyColumn] else CompanyPlaceholder)
    ensures CustomerColumn !in invoice ==> Contains(text, CustomerPlaceholder)
    ensures IssuedColumn !in invoice ==> Contains(text, DatePlaceholder)
    ensures CompanyColumn !in invoice ==> Contains(text, CompanyPlaceholder)
    ensures CustomerColumn in invoice ==> Contains(text, invoice[CustomerColumn])
    ensures IssuedColumn in invoice ==> Contains(text, invoice[IssuedColumn])
    ensures CompanyColumn in invoice ==> Contains(text, invoice[CompanyColumn])
  {
    var customerName := CustomerPlaceholder;
    var issuedDate := DatePlaceholder;
    var companyName := CompanyPlaceholder;
    if CustomerColumn in invoice {
      customerName := invoice[CustomerColumn];
    }
    if IssuedColumn in invoice {
      issuedDate := invoice[IssuedColumn];
    }
    if CompanyColumn in invoice {
      companyName := invoice[CompanyColumn];
    }
    text := Narrative(customerName, issuedDate, companyName);
    NarrativeMentions(customerName, issuedDate, companyName);
  }
}
