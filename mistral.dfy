/** The markdown OCR path of `extract_with_mistral`
    (backend/waybill/views.py:225-270): the pages' markdown is concatenated
    into one text, and each stripped line of it is filed under at most one
    analysis field by case-insensitive keyword rules tried in a fixed order. */
module Mistral {
  import opened Common
  import opened Strings

  // ---------------------------------------------------------------------
  // Page text
  // ---------------------------------------------------------------------

  /** `extracted_text`: each page's markdown followed by a newline, in page
      order. */
  function PagesText(pages: seq<string>): string
  {
    if |pages| == 0 then "" else PagesText(pages[..|pages| - 1]) + pages[|pages| - 1] + "\n"
  }

  /** The page text is the newline join of the pages with an empty piece
      after the last one, so it ends with a newline whenever there is a page. */
  lemma {:induction false} PagesTextIsJoin(pages: seq<string>)
    ensures PagesText(pages) == Join(pages + [""], "\n")
  {
    if |pages| > 0 {
      var init := pages[..|pages| - 1];
      PagesTextIsJoin(init);
      assert pages + [""] == init + [pages[|pages| - 1], ""];
      JoinBeforeEmpty(init, pages[|pages| - 1], "\n");
    }
  }

  /** Splitting the text at newlines gives back the pages, plus the empty
      line after the final newline, when no page spans several lines. */
  lemma PagesTextSplitsIntoPages(pages: seq<string>)
    requires forall k :: 0 <= k < |pages| ==> '\n' !in pages[k]
    ensures Split(PagesText(pages), '\n') == pages + [""]
  {
    PagesTextIsJoin(pages);
    var parts := pages + [""];
    assert forall k :: 0 <= k < |parts| ==> '\n' !in parts[k] by {
      forall k | 0 <= k < |parts| ensures '\n' !in parts[k] {
        if k < |pages| {
          assert parts[k] == pages[k];
        }
      }
    }
    SplitJoinRoundTrip(parts, '\n');
  }

  /** The accumulation loop over the pages. */
  method AssembleText(pages: seq<string>) returns (extractedText: string)
    ensures extractedText == PagesText(pages)
    ensures pages != [] ==> |extractedText| > 0 && extractedText[|extractedText| - 1] == '\n'
  {
    extractedText := "";
    for i := 0 to |pages|
      invariant extractedText == PagesText(pages[..i])
    {
      assert pages[..i + 1][..i] == pages[..i];
      extractedText := extractedText + pages[i] + "\n";
    }
    assert pages[..|pages|] == pages;
  }

  // ---------------------------------------------------------------------
  // Line classification
  // ---------------------------------------------------------------------

  /** The analysis fields a line can be filed under. */
  datatype Field = SenderInfo | RecipientInfo | TrackingNumber | Date | Weight

  /** `analysis`: the `sender` and `recipient` dicts hold at most their
      `info` entry; `shipment` is a dict whose keys keep the place of their
      first assignment. */
  datatype Analysis = Analysis(
    senderInfo: Option<string>,
    recipientInfo: Option<string>,
    shipment: Dict<string>)

  const EmptyAnalysis := Analysis(None, None, [])

  /** The key a field is stored under in the `shipment` dict; the sender and
      recipient fields are stored elsewhere. */
  function ShipmentKey(f: Field): Option<string>
  {
    match f
    case TrackingNumber => Some("tracking_number")
    case Date => Some("date")
    case Weight => Some("weight")
    case _ => None
  }

  function FieldOf(a: Analysis, f: Field): Option<string>
  {
    match f
    case SenderInfo => a.senderInfo
    case RecipientInfo => a.recipientInfo
    case TrackingNumber => Get(a.shipment, "tracking_number")
    case Date => Get(a.shipment, "date")
    case Weight => Get(a.shipment, "weight")
  }

  /** Filing a line under a field sets that field and no other; a shipment
      key is appended to the dict the first time it is set and keeps its
      place afterwards. */
  function WithField(a: Analysis, f: Field, line: string): (r: Analysis)
    ensures FieldOf(r, f) == Some(line)
    ensures forall g :: g != f ==> FieldOf(r, g) == FieldOf(a, g)
    ensures ShipmentKey(f).None? ==> r.shipment == a.shipment
    ensures ShipmentKey(f).Some? ==> r.shipment == Put(a.shipment, ShipmentKey(f).value, line)
  {
    match f
    case SenderInfo => a.(senderInfo := Some(line))
    case RecipientInfo => a.(recipientInfo := Some(line))
    case TrackingNumber => a.(shipment := Put(a.shipment, "tracking_number", line))
    case Date => a.(shipment := Put(a.shipment, "date", line))
    case Weight => a.(shipment := Put(a.shipment, "weight", line))
  }

  /** The keywords whose presence files a line under a field. */
  function Keywords(f: Field): seq<string>
  {
    match f
    case SenderInfo => ["sender", "from"]
    case RecipientInfo => ["recipient", "to"]
    case TrackingNumber => ["tracking", "waybill"]
    case Date => ["date"]
    case Weight => ["weight"]
  }

  /** The first rule the lower-cased line satisfies, in the order
      sender|from, recipient|to, tracking|waybill, date, weight: a line is
      only ever filed under a field one of whose keywords it holds. */
  function RuleOf(lowered: string): (r: Option<Field>)
    ensures r.Some? ==> exists kw :: kw in Keywords(r.value) && Contains(lowered, kw)
  {
    if Contains(lowered, "sender") || Contains(lowered, "from") then Some(SenderInfo)
    else if Contains(lowered, "recipient") || Contains(lowered, "to") then Some(RecipientInfo)
    else if Contains(lowered, "tracking") || Contains(lowered, "waybill") then Some(TrackingNumber)
    else if Contains(lowered, "date") then Some(Date)
    else if Contains(lowered, "weight") then Some(Weight)
    else None
  }

  /** A keyword of an earlier rule always wins over the keywords of later
      ones, and a line is left unfiled exactly when it holds none of the
      eight keywords. */
  lemma RulePriority(lowered: string)
    ensures Contains(lowered, "sender") || Contains(lowered, "from") ==> RuleOf(lowered) == Some(SenderInfo)
    ensures Contains(lowered, "recipient") || Contains(lowered, "to") ==>
      RuleOf(lowered) in {Some(SenderInfo), Some(RecipientInfo)}
    ensures Contains(lowered, "tracking") || Contains(lowered, "waybill") ==>
      RuleOf(lowered) in {Some(SenderInfo), Some(RecipientInfo), Some(TrackingNumber)}
    ensures Contains(lowered, "date") ==> RuleOf(lowered) != Some(Weight) && RuleOf(lowered) != None
    ensures RuleOf(lowered) == None <==>
      !Contains(lowered, "sender") && !Contains(lowered, "from") && !Contains(lowered, "recipient")
      && !Contains(lowered, "to") && !Contains(lowered, "tracking") && !Contains(lowered, "waybill")
      && !Contains(lowered, "date") && !Contains(lowered, "weight")
  {
  }

  /** The rule a raw line of the text falls under: the line is stripped, and
      the stripped line is what the rules match (lower-cased) and what is stored. */
  function LineRule(raw: string): Option<Field>
  {
    RuleOf(Lower(Strip(raw)))
  }

  /** One iteration of the classification loop. */
  function FileLine(a: Analysis, raw: string): Analysis
  {
    match LineRule(raw)
    case Some(f) => WithField(a, f, Strip(raw))
    case None => a
  }

  /** The analysis after every line, first to last: whatever a field holds
      is the stripped text of a line filed under it. */
  function Classify(lines: seq<string>): (r: Analysis)
    ensures forall f :: FieldOf(r, f).Some? ==>
      exists j :: 0 <= j < |lines| && LineRule(lines[j]) == Some(f) && FieldOf(r, f) == Some(Strip(lines[j]))
  {
    if |lines| == 0 then EmptyAnalysis
    else
      var init := lines[..|lines| - 1];
      var a := Classify(init);
      FileLineTouchesOneField(a, lines[|lines| - 1]);
      assert forall j :: 0 <= j < |init| ==> init[j] == lines[j];
      FileLine(a, lines[|lines| - 1])
  }

  /** A line changes at most one field, the one its first matching rule
      names, and stores its stripped self there. */
  lemma FileLineTouchesOneField(a: Analysis, raw: string)
    ensures forall f :: FieldOf(FileLine(a, raw), f) ==
                          (if LineRule(raw) == Some(f) then Some(Strip(raw)) else FieldOf(a, f))
  {
  }

  /** A line that matches no rule leaves the analysis as it was. */
  lemma UnmatchedLineKeepsAnalysis(lines: seq<string>, raw: string)
    requires LineRule(raw) == None
    ensures Classify(lines + [raw]) == Classify(lines)
  {
    assert (lines + [raw])[..|lines|] == lines;
  }

  /** A field is absent exactly when no line is filed under it. */
  lemma {:induction false} UnfiledFieldAbsent(lines: seq<string>, f: Field)
    ensures FieldOf(Classify(lines), f).None? <==>
      forall j :: 0 <= j < |lines| ==> LineRule(lines[j]) != Some(f)
  {
    if j :| 0 <= j < |lines| && LineRule(lines[j]) == Some(f) {
      FiledFieldPresent(lines, f, j);
    }
  }

  /** Once a line is filed under a field, the field stays present. */
  lemma {:induction false} FiledFieldPresent(lines: seq<string>, f: Field, j: int)
    requires 0 <= j < |lines| && LineRule(lines[j]) == Some(f)
    ensures FieldOf(Classify(lines), f).Some?
  {
    var init := lines[..|lines| - 1];
    FileLineTouchesOneField(Classify(init), lines[|lines| - 1]);
    if j < |lines| - 1 {
      assert init[j] == lines[j];
      FiledFieldPresent(init, f, j);
    }
  }

  /** A field holds the stripped text of the LAST line filed under it. */
  lemma {:induction false} LastMatchWins(lines: seq<string>, f: Field, j: int)
    requires 0 <= j < |lines| && LineRule(lines[j]) == Some(f)
    requires forall k :: j < k < |lines| ==> LineRule(lines[k]) != Some(f)
    ensures FieldOf(Classify(lines), f) == Some(Strip(lines[j]))
  {
    var init := lines[..|lines| - 1];
    FileLineTouchesOneField(Classify(init), lines[|lines| - 1]);
    if j < |lines| - 1 {
      assert init[j] == lines[j];
      LastMatchWins(init, f, j);
    }
  }

  /** The shipment keys the lines are filed under, in line order, repeats
      included. */
  function FiledShipmentKeys(lines: seq<string>): seq<string>
  {
    if |lines| == 0 then []
    else
      var k := match LineRule(lines[|lines| - 1])
        case Some(f) => (match ShipmentKey(f) case Some(k) => [k] case None => [])
        case None => [];
      FiledShipmentKeys(lines[..|lines| - 1]) + k
  }

  /** The first occurrence of each element, in order. */
  function FirstOccurrences(xs: seq<string>): (r: seq<string>)
    ensures forall x :: x in r <==> x in xs
  {
    if |xs| == 0 then []
    else
      var r0 := FirstOccurrences(xs[..|xs| - 1]);
      assert xs == xs[..|xs| - 1] + [xs[|xs| - 1]];
      if xs[|xs| - 1] in r0 then r0 else r0 + [xs[|xs| - 1]]
  }

  /** The `shipment` dict lists its keys in the order in which lines were
      first filed under them (not in a fixed field order), each key once;
      this is the order in which they are stored and later exported. */
  lemma {:induction false} ShipmentKeysInFilingOrder(lines: seq<string>)
    ensures Keys(Classify(lines).shipment) == FirstOccurrences(FiledShipmentKeys(lines))
    ensures UniqueKeys(Classify(lines).shipment)
  {
    if |lines| > 0 {
      var init := lines[..|lines| - 1];
      var last := lines[|lines| - 1];
      var a := Classify(init);
      ShipmentKeysInFilingOrder(init);
      match LineRule(last)
      case Some(f) =>
        assert Classify(lines) == WithField(a, f, Strip(last));
        match ShipmentKey(f) {
          case Some(k) =>
            assert FiledShipmentKeys(lines) == FiledShipmentKeys(init) + [k];
            PutKeepsUnique(a.shipment, k, Strip(last));
          case None =>
            assert FiledShipmentKeys(lines) == FiledShipmentKeys(init);
        }
      case None =>
        assert FiledShipmentKeys(lines) == FiledShipmentKeys(init);
    }
  }

  /** The classification loop over the text's lines. */
  method ClassifyText(extractedText: string) returns (analysis: Analysis)
    ensures analysis == Classify(Split(extractedText, '\n'))
  {
    var lines := Split(extractedText, '\n');
    analysis := EmptyAnalysis;
    for i := 0 to |lines|
      invariant analysis == Classify(lines[..i])
    {
      assert lines[..i + 1][..i] == lines[..i];
      assert Classify(lines[..i + 1]) == FileLine(analysis, lines[i]);
      var line := Strip(lines[i]);
      var lowered := Lower(line);
      if Contains(lowered, "sender") || Contains(lowered, "from") {
        analysis := analysis.(senderInfo := Some(line));
      } else if Contains(lowered, "recipient") || Contains(lowered, "to") {
        analysis := analysis.(recipientInfo := Some(line));
      } else if Contains(lowered, "tracking") || Contains(lowered, "waybill") {
        analysis := analysis.(shipment := Put(analysis.shipment, "tracking_number", line));
      } else if Contains(lowered, "date") {
        analysis := analysis.(shipment := Put(analysis.shipment, "date", line));
      } else if Contains(lowered, "weight") {
        analysis := analysis.(shipment := Put(analysis.shipment, "weight", line));
      }
    }
    assert lines[..|lines|] == lines;
  }

  /** What `extract_with_mistral` derives from the OCR pages: the raw text
      and its analysis. */
  datatype MistralText = MistralText(rawText: string, analysis: Analysis)

  method ExtractWithMistral(pages: seq<string>) returns (r: MistralText)
    ensures r.rawText == PagesText(pages)
    ensures r.analysis == Classify(Split(PagesText(pages), '\n'))
  {
    var extractedText := AssembleText(pages);
    var analysis := ClassifyText(extractedText);
    r := MistralText(extractedText, analysis);
  }

  // ---------------------------------------------------------------------
  // Consequences of plain substring rules
  // ---------------------------------------------------------------------

  /** A keyword occurs only in a line holding each of its characters. */
  lemma OccurrenceHasChar(s: string, sub: string, c: char)
    requires c in sub
    ensures Contains(s, sub) ==> c in s
  {
    if Contains(s, sub) {
      var i :| 0 <= i <= |s| - |sub| && OccursAt(s, sub, i);
      var k :| 0 <= k < |sub| && sub[k] == c;
      assert s[i..i + |sub|][k] == s[i + k];
    }
  }

  lemma TotalWeightLetters()
    ensures 's' !in "total weight: 5 kg" && 'f' !in "total weight: 5 kg"
  {
    var l := "total weight: 5 kg";
    assert forall i :: 0 <= i < |l| ==> l[i] != 's' && l[i] != 'f';
  }

  lemma TotalWeightRule()
    ensures RuleOf("total weight: 5 kg") == Some(RecipientInfo)
  {
    var l := "total weight: 5 kg";
    assert OccursAt(l, "to", 0);
    TotalWeightLetters();
    OccurrenceHasChar(l, "sender", 's');
    OccurrenceHasChar(l, "from", 'f');
  }

  /** "total weight: 5 kg" is filed as recipient information, not as the
      weight: "to" is matched as a plain substring and its rule comes first. */
  lemma TotalWeightFiledAsRecipient()
    ensures LineRule("total weight: 5 kg") == Some(RecipientInfo)
  {
    var l := "total weight: 5 kg";
    assert !IsSpace(l[0]) && !IsSpace(l[|l| - 1]);
    LowerWithoutCapitals(l);
    TotalWeightRule();
  }
}
