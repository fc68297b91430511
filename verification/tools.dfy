/** The three text tools the analysis stages may call: the PDF reader's
    page accumulation and blank-line collapse, and the two pre-processing
    tools that normalise whitespace and wrap the text in a fixed frame.
    Page extraction itself is a library call: the pages arrive as the
    values `extract_text()` returned, in page order. */
module Tools {

  import opened Results
  import opened PyStr

  // ---------------------------------------------------------------------
  // Blank-line collapse in the PDF reader
  // ---------------------------------------------------------------------

  /** `"\n\n" in s`, as a property. */
  predicate HasDoubleNewline(s: string) {
    exists i :: 0 <= i < |s| - 1 && s[i] == '\n' && s[i + 1] == '\n'
  }

  /** `"\n\n" in s`, as the loop test computes it. */
  function ContainsDoubleNewline(s: string): (b: bool)
    ensures b <==> HasDoubleNewline(s)
  {
    if |s| < 2 then false
    else if s[0] == '\n' && s[1] == '\n' then true
    else
      var b := ContainsDoubleNewline(s[1..]);
      assert HasDoubleNewline(s[1..]) ==> HasDoubleNewline(s) by {
        if HasDoubleNewline(s[1..]) {
          var i :| 0 <= i < |s| - 2 && s[1..][i] == '\n' && s[1..][i + 1] == '\n';
          assert s[i + 1] == '\n' && s[i + 2] == '\n';
        }
      }
      assert HasDoubleNewline(s) ==> HasDoubleNewline(s[1..]) by {
        if HasDoubleNewline(s) {
          var i :| 0 <= i < |s| - 1 && s[i] == '\n' && s[i + 1] == '\n';
          assert i > 0;
          assert s[1..][i - 1] == '\n' && s[1..][i] == '\n';
        }
      }
      b
  }

  /** `s.replace("\n\n", "\n")`: one left-to-right pass replacing
      non-overlapping pairs. */
  function ReplaceDoubleNewline(s: string): (r: string)
    ensures NonNewlines(r) == NonNewlines(s)
  {
    if |s| < 2 then s
    else if s[0] == '\n' && s[1] == '\n' then
      var rest := ReplaceDoubleNewline(s[2..]);
      assert ("\n" + rest)[1..] == rest;
      assert s[1..][1..] == s[2..];
      "\n" + rest
    else
      var rest := ReplaceDoubleNewline(s[1..]);
      assert ([s[0]] + rest)[1..] == rest;
      [s[0]] + rest
  }

  /** Reference for the collapse: every maximal run of newlines becomes a
      single newline, everything else is kept. */
  function Squeeze(s: string): string
  {
    if |s| < 2 then s
    else if s[0] == '\n' && s[1] == '\n' then Squeeze(s[1..])
    else [s[0]] + Squeeze(s[1..])
  }

  /** The characters of `s` other than newline, in order. */
  function NonNewlines(s: string): string
  {
    if s == [] then [] else (if s[0] == '\n' then [] else [s[0]]) + NonNewlines(s[1..])
  }

  lemma {:induction false} ReplaceHead(s: string)
    ensures |ReplaceDoubleNewline(s)| <= |s|
    ensures HasDoubleNewline(s) ==> |ReplaceDoubleNewline(s)| < |s|
    ensures s != [] ==> ReplaceDoubleNewline(s) != [] && ReplaceDoubleNewline(s)[0] == s[0]
  {
    if |s| >= 2 {
      if s[0] == '\n' && s[1] == '\n' {
        ReplaceHead(s[2..]);
      } else {
        ReplaceHead(s[1..]);
        if HasDoubleNewline(s) {
          var i :| 0 <= i < |s| - 1 && s[i] == '\n' && s[i + 1] == '\n';
          assert s[1..][i - 1] == '\n' && s[1..][i] == '\n';
        }
      }
    }
  }

  lemma {:induction false} SqueezeHead(s: string)
    ensures s != [] ==> Squeeze(s) != [] && Squeeze(s)[0] == s[0]
  {
    if |s| >= 2 {
      SqueezeHead(s[1..]);
    }
  }

  /** One step of `Squeeze` on a string given as a head and a tail. */
  lemma SqueezeCons(c: char, x: string)
    ensures Squeeze([c] + x) ==
      if x != [] && c == '\n' && x[0] == '\n' then Squeeze(x) else [c] + Squeeze(x)
  {
    assert ([c] + x)[1..] == x;
  }

  /** A replacement pass leaves the squeezed form unchanged: this is the
      loop's invariant. */
  lemma {:induction false} ReplaceKeepsSqueeze(s: string)
    ensures Squeeze(ReplaceDoubleNewline(s)) == Squeeze(s)
  {
    if |s| >= 2 {
      if s[0] == '\n' && s[1] == '\n' {
        var t := s[2..];
        ReplaceKeepsSqueeze(t);
        ReplaceHead(t);
        SqueezeCons('\n', ReplaceDoubleNewline(t));
        SqueezeCons('\n', t);
        assert s[1..] == "\n" + t;
      } else {
        var t := s[1..];
        ReplaceKeepsSqueeze(t);
        ReplaceHead(t);
        SqueezeCons(s[0], ReplaceDoubleNewline(t));
      }
    }
  }

  /** A string without a double newline is its own squeezed form. */
  lemma {:induction false} SqueezeFixpoint(s: string)
    requires !HasDoubleNewline(s)
    ensures Squeeze(s) == s
  {
    if |s| >= 2 {
      assert !(s[0] == '\n' && s[1] == '\n');
      forall i | 0 <= i < |s| - 2
        ensures !(s[1..][i] == '\n' && s[1..][i + 1] == '\n')
      {
        assert s[1..][i] == s[i + 1] && s[1..][i + 1] == s[i + 2];
      }
      SqueezeFixpoint(s[1..]);
      assert s == [s[0]] + s[1..];
    }
  }

  /** Squeezing leaves no double newline. */
  lemma {:induction false} SqueezeNoDoubleNewline(s: string)
    ensures !HasDoubleNewline(Squeeze(s))
  {
    if |s| >= 2 {
      SqueezeNoDoubleNewline(s[1..]);
      if !(s[0] == '\n' && s[1] == '\n') {
        var r := Squeeze(s[1..]);
        SqueezeHead(s[1..]);
        var out := [s[0]] + r;
        forall i | 0 <= i < |out| - 1
          ensures !(out[i] == '\n' && out[i + 1] == '\n')
        {
          if i == 0 {
            assert out[1] == r[0] == s[1];
          } else {
            assert out[i] == r[i - 1] && out[i + 1] == r[i];
          }
        }
      }
    }
  }

  /** Squeezing removes newlines only. */
  lemma {:induction false} SqueezeKeepsNonNewlines(s: string)
    ensures NonNewlines(Squeeze(s)) == NonNewlines(s)
  {
    if |s| >= 2 {
      SqueezeKeepsNonNewlines(s[1..]);
      if !(s[0] == '\n' && s[1] == '\n') {
        assert ([s[0]] + Squeeze(s[1..]))[1..] == Squeeze(s[1..]);
      }
    }
  }

  /** `while "\n\n" in content: content = content.replace("\n\n", "\n")`. */
  method CollapseNewlines(content: string) returns (page: string)
    ensures !HasDoubleNewline(page)
    ensures NonNewlines(page) == NonNewlines(content)
    ensures page == Squeeze(content)
    ensures page == [] <==> content == []
  {
    page := content;
    while ContainsDoubleNewline(page)
      invariant Squeeze(page) == Squeeze(content)
      decreases |page|
    {
      ReplaceHead(page);
      ReplaceKeepsSqueeze(page);
      page := ReplaceDoubleNewline(page);
    }
    SqueezeFixpoint(page);
    SqueezeKeepsNonNewlines(content);
    SqueezeHead(content);
  }

  // ---------------------------------------------------------------------
  // Page accumulation in the PDF reader
  // ---------------------------------------------------------------------

  /** What one page adds to the report: nothing when `extract_text()` gave
      `None` or `""`, otherwise its collapsed text and one newline. */
  function PageContribution(page: Option<string>): string
  {
    match page
    case None => []
    case Some(text) => if text == [] then [] else Squeeze(text) + "\n"
  }

  /** Reference for the accumulated report: the contributions of the pages,
      in page order. */
  function Report(pages: seq<Option<string>>): string
  {
    if pages == [] then [] else PageContribution(pages[0]) + Report(pages[1..])
  }

  /** The error text returned when the accumulated report is blank. */
  const NoTextMessage: string :=
    "Error: Document was read, but no text could be extracted. It might be a scanned image."

  /** The `for page in reader.pages` loop: `full_report += content + "\n"`
      for every non-empty page, after the collapse. */
  method AccumulateReport(pages: seq<Option<string>>) returns (report: string)
    ensures report == Report(pages)
  {
    report := [];
    var i := 0;
    while i < |pages|
      invariant 0 <= i <= |pages|
      invariant report == Report(pages[..i])
    {
      if pages[i].Some? && pages[i].value != [] {
        var page := CollapseNewlines(pages[i].value);
        report := report + page + "\n";
      }
      assert pages[..i + 1] == pages[..i] + [pages[i]];
      ReportSnoc(pages[..i], pages[i]);
      i := i + 1;
    }
    assert pages[..|pages|] == pages;
  }

  /** `read_financial_document` once the PDF has been opened: the report,
      or the fixed error text when the report is empty or whitespace only. */
  method ReadFinancialDocument(pages: seq<Option<string>>) returns (text: string)
    ensures AllSpace(Report(pages)) ==> text == NoTextMessage
    ensures !AllSpace(Report(pages)) ==> text == Report(pages)
  {
    var report := AccumulateReport(pages);
    if Strip(report) == [] {
      text := NoTextMessage;
    } else {
      text := report;
    }
  }

  /** The report of consecutive runs of pages is the concatenation of their reports. */
  lemma {:induction false} ReportAppend(a: seq<Option<string>>, b: seq<Option<string>>)
    ensures Report(a + b) == Report(a) + Report(b)
  {
    if a == [] {
      assert a + b == b;
    } else {
      assert (a + b)[0] == a[0];
      assert (a + b)[1..] == a[1..] + b;
      ReportAppend(a[1..], b);
    }
  }

  /** One more page adds its contribution at the end. */
  lemma ReportSnoc(p: seq<Option<string>>, x: Option<string>)
    ensures Report(p + [x]) == Report(p) + PageContribution(x)
  {
    ReportAppend(p, [x]);
    assert [x][1..] == [];
  }

  /** Pages without text contribute nothing: removing them leaves the report unchanged. */
  lemma EmptyPageContributesNothing(before: seq<Option<string>>, page: Option<string>, after: seq<Option<string>>)
    requires page == None || page == Some([])
    ensures Report(before + [page] + after) == Report(before + after)
  {
    ReportAppend(before + [page], after);
    ReportAppend(before, after);
    ReportSnoc(before, page);
  }

  /** Each page's text in the report holds no blank line of its own. */
  lemma PageTextHasNoDoubleNewline(page: Option<string>)
    requires page.Some? && page.value != []
    ensures PageContribution(page) == Squeeze(page.value) + "\n"
    ensures !HasDoubleNewline(Squeeze(page.value))
  {
    SqueezeNoDoubleNewline(page.value);
  }

  /** Squeezing keeps the last character. */
  lemma {:induction false} SqueezeLast(s: string)
    requires s != []
    ensures Squeeze(s) != [] && Squeeze(s)[|Squeeze(s)| - 1] == s[|s| - 1]
  {
    if |s| >= 2 {
      SqueezeLast(s[1..]);
    }
  }

  /** A blank line still appears in the report wherever a page's own text
      ends with a newline: the separator appended after the page follows it. */
  lemma ReportKeepsPageBoundaryBlankLine(before: seq<Option<string>>, text: string, after: seq<Option<string>>)
    requires text != [] && text[|text| - 1] == '\n'
    ensures HasDoubleNewline(Report(before + [Some(text)] + after))
  {
    ReportAppend(before + [Some(text)], after);
    ReportSnoc(before, Some(text));
    SqueezeLast(text);
    var head := Report(before);
    var page := Squeeze(text) + "\n";
    var r := head + page + Report(after);
    var i := |head| + |Squeeze(text)| - 1;
    assert r[i] == page[|Squeeze(text)| - 1] == '\n';
    assert r[i + 1] == page[|Squeeze(text)|] == '\n';
  }

  lemma {:induction false} AllSpaceAppend(a: string, b: string)
    ensures AllSpace(a + b) <==> AllSpace(a) && AllSpace(b)
  {
    if AllSpace(a) && AllSpace(b) {
      forall i | 0 <= i < |a + b| ensures IsSpace((a + b)[i]) {
        if i >= |a| {
          assert (a + b)[i] == b[i - |a|];
        }
      }
    }
    if AllSpace(a + b) {
      forall i | 0 <= i < |a| ensures IsSpace(a[i]) {
        assert a[i] == (a + b)[i];
      }
      forall i | 0 <= i < |b| ensures IsSpace(b[i]) {
        assert b[i] == (a + b)[|a| + i];
      }
    }
  }

  /** Whitespace-only exactly when the characters other than newlines are. */
  lemma {:induction false} AllSpaceNonNewlines(s: string)
    ensures AllSpace(s) <==> AllSpace(NonNewlines(s))
  {
    if s != [] {
      AllSpaceNonNewlines(s[1..]);
      AllSpaceAppend(if s[0] == '\n' then [] else [s[0]], NonNewlines(s[1..]));
      AllSpaceAppend([s[0]], s[1..]);
      assert s == [s[0]] + s[1..];
    }
  }

  /** The reader reports that no text could be extracted exactly when every
      page gave no text or whitespace only. */
  lemma {:induction false} BlankReportIffBlankPages(pages: seq<Option<string>>)
    ensures AllSpace(Report(pages)) <==>
      forall i :: 0 <= i < |pages| && pages[i].Some? ==> AllSpace(pages[i].value)
  {
    if pages != [] {
      var first := pages[0];
      var rest := pages[1..];
      BlankReportIffBlankPages(rest);
      AllSpaceAppend(PageContribution(first), Report(rest));
      if first.Some? && first.value != [] {
        var t := first.value;
        AllSpaceAppend(Squeeze(t), "\n");
        AllSpaceNonNewlines(t);
        AllSpaceNonNewlines(Squeeze(t));
        SqueezeKeepsNonNewlines(t);
      }
      assert forall i :: 0 <= i < |rest| ==> rest[i] == pages[i + 1];
    }
  }

  // ---------------------------------------------------------------------
  // The two pre-processing tools
  // ---------------------------------------------------------------------

  /** `" ".join(financial_text.split())`. */
  function Normalize(text: string): (r: string)
    ensures SingleSpaced(r)
    ensures Split(r) == Split(text)
  {
    JoinSingleSpaced(Split(text));
    SplitJoin(Split(text));
    JoinSpace(Split(text))
  }

  /** A string is left unchanged by the normaliser exactly when it is already single-spaced. */
  lemma NormalizeFixedPoints(s: string)
    ensures Normalize(s) == s <==> SingleSpaced(s)
  {
    if SingleSpaced(s) {
      SingleSpacedFixpoint(s);
    }
  }

  /** Normalising twice is normalising once. */
  lemma NormalizeIdempotent(text: string)
    ensures Normalize(Normalize(text)) == Normalize(text)
  {
    NormalizeFixedPoints(Normalize(text));
  }

  /** The framing a pre-processing tool puts around the normalised text. */
  datatype Framing = Investment | Risk

  const InvestmentTitle: string := "--- INVESTMENT DATA PRE-PROCESSED ---"
  const RiskTitle: string := "--- RISK DATA PRE-PROCESSED ---"
  const InvestmentLeadIn: string := "Data ready for EPS, Gross Margin, and Cash Flow extraction:"
  const RiskLeadIn: string := "Data ready for macroeconomic headwind, operational risk, and debt extraction:"

  function Title(f: Framing): string
  {
    match f
    case Investment => InvestmentTitle
    case Risk => RiskTitle
  }

  function LeadIn(f: Framing): string
  {
    match f
    case Investment => InvestmentLeadIn
    case Risk => RiskLeadIn
  }

  const LengthPrefix: string := "Extracted Length: "
  const LengthSuffix: string := " characters."

  function LengthLine(n: nat): string
  {
    LengthPrefix + NatToString(n) + LengthSuffix
  }

  /** The f-string both tools return: title, length line, lead-in, a blank
      line, then the data. */
  function Frame(title: string, leadIn: string, data: string): string
  {
    title + "\n" + LengthLine(|data|) + "\n" + leadIn + "\n\n" + data
  }

  /** Either tool: normalise, then frame. A reader who knows the framing
      gets back the normalised text and a length that matches it. */
  function Preprocess(f: Framing, text: string): (r: string)
    ensures ParseFrame(Title(f), LeadIn(f), r) == Some(Preprocessed(|Normalize(text)|, Normalize(text)))
  {
    var data := Normalize(text);
    ParseFrameRoundTrip(Title(f), LeadIn(f), data);
    Frame(Title(f), LeadIn(f), data)
  }

  /** `analyze_investment_tool`. */
  function AnalyzeInvestmentTool(financialText: string): (r: string)
    ensures ParseFrame(InvestmentTitle, InvestmentLeadIn, r)
      == Some(Preprocessed(|Normalize(financialText)|, Normalize(financialText)))
  {
    Preprocess(Investment, financialText)
  }

  /** `create_risk_assessment_tool`. */
  function CreateRiskAssessmentTool(financialText: string): (r: string)
    ensures ParseFrame(RiskTitle, RiskLeadIn, r)
      == Some(Preprocessed(|Normalize(financialText)|, Normalize(financialText)))
  {
    Preprocess(Risk, financialText)
  }

  /** What a reader of a tool's output takes back out of it. */
  datatype Preprocessed = Preprocessed(length: nat, data: string)

  /** The number on a line `Extracted Length: <n> characters.`. */
  function ParseLengthLine(line: string): Option<nat>
  {
    if |line| >= |LengthPrefix| + |LengthSuffix|
      && line[..|LengthPrefix|] == LengthPrefix
      && line[|line| - |LengthSuffix|..] == LengthSuffix
    then ParseNat(line[|LengthPrefix|..|line| - |LengthSuffix|])
    else None
  }

  /** Reads a framed output back, given its title and lead-in: the title
      line, the length line, the lead-in line and a blank line, then the data. */
  function ParseFrame(title: string, leadIn: string, s: string): Option<Preprocessed>
  {
    var head := title + "\n";
    if |s| < |head| || s[..|head|] != head then None
    else
      var afterTitle := s[|head|..];
      match Find(afterTitle, '\n')
      case None => None
      case Some(b) =>
        match ParseLengthLine(afterTitle[..b])
        case None => None
        case Some(n) =>
          var afterLength := afterTitle[b + 1..];
          var lead := leadIn + "\n\n";
          if |afterLength| < |lead| || afterLength[..|lead|] != lead then None
          else Some(Preprocessed(n, afterLength[|lead|..]))
  }

  /** The three parts of `p + d + q` can be cut back out of it. */
  lemma CutThree(p: string, d: string, q: string)
    ensures var w := p + d + q;
      && w[..|p|] == p && w[|w| - |q|..] == q && w[|p|..|w| - |q|] == d
  {
    var w := p + d + q;
    assert w[..|p|] == p;
    assert w[|w| - |q|..] == q;
    assert w[|p|..|w| - |q|] == d;
  }

  lemma ParseLengthLineOf(n: nat)
    ensures ParseLengthLine(LengthLine(n)) == Some(n)
    ensures '\n' !in LengthLine(n)
  {
    var digits := NatToString(n);
    ParseNatToString(n);
    CutThree(LengthPrefix, digits, LengthSuffix);
    assert '\n' !in LengthPrefix && '\n' !in LengthSuffix;
    assert '\n' !in digits by {
      assert forall i :: 0 <= i < |digits| ==> digits[i] != '\n';
    }
  }

  /** A framed output reads back as the length of the data and the data itself. */
  lemma ParseFrameRoundTrip(title: string, leadIn: string, data: string)
    ensures ParseFrame(title, leadIn, Frame(title, leadIn, data)) == Some(Preprocessed(|data|, data))
  {
    var r := Frame(title, leadIn, data);
    var head := title + "\n";
    var line := LengthLine(|data|);
    var lead := leadIn + "\n\n";
    ParseLengthLineOf(|data|);
    var afterTitle := line + "\n" + (lead + data);
    assert r == head + afterTitle;
    assert r[..|head|] == head && r[|head|..] == afterTitle;
    FindAfter(line, '\n', lead + data);
    var afterLength := lead + data;
    assert afterLength[..|lead|] == lead && afterLength[|lead|..] == data;
  }

  /** A length line that reads as n is the line `LengthLine(n)` itself. */
  lemma LengthLineCanonical(line: string, n: nat)
    requires ParseLengthLine(line) == Some(n)
    ensures line == LengthLine(n)
  {
    var digits := line[|LengthPrefix|..|line| - |LengthSuffix|];
    ParseNatCanonical(digits, n);
    assert line == line[..|LengthPrefix|] + digits + line[|line| - |LengthSuffix|..];
  }

  /** Only the framed output reads back as a data text and its length: the
      read-back fixes the whole string. */
  lemma ParseFrameExact(title: string, leadIn: string, s: string, data: string)
    requires ParseFrame(title, leadIn, s) == Some(Preprocessed(|data|, data))
    ensures s == Frame(title, leadIn, data)
  {
    var head := title + "\n";
    var lead := leadIn + "\n\n";
    var afterTitle := s[|head|..];
    var b := Find(afterTitle, '\n').value;
    var line := afterTitle[..b];
    var afterLength := afterTitle[b + 1..];
    LengthLineCanonical(line, |data|);
    CutAt(afterLength, |lead|);
    CutAround(afterTitle, b);
    CutAt(s, |head|);
    FrameParts(title, leadIn, data);
  }

  /** A string is its prefix followed by the rest. */
  lemma CutAt(x: string, k: nat)
    requires k <= |x|
    ensures x == x[..k] + x[k..]
  {
  }

  /** A string is what comes before position k, the character there, and the rest. */
  lemma CutAround(x: string, k: nat)
    requires k < |x|
    ensures x == x[..k] + [x[k]] + x[k + 1..]
  {
  }

  /** The frame, grouped as the parser reads it. */
  lemma FrameParts(title: string, leadIn: string, data: string)
    ensures Frame(title, leadIn, data)
      == (title + "\n") + (LengthLine(|data|) + "\n" + ((leadIn + "\n\n") + data))
  {
  }

  /** The two tools differ only in their framing: read back with their own
      framing, they report the same length and carry the same data. */
  lemma ToolsDifferOnlyInFraming(text: string)
    ensures ParseFrame(Title(Investment), LeadIn(Investment), AnalyzeInvestmentTool(text))
         == ParseFrame(Title(Risk), LeadIn(Risk), CreateRiskAssessmentTool(text))
         == Some(Preprocessed(|Normalize(text)|, Normalize(text)))
    ensures AnalyzeInvestmentTool(text) != CreateRiskAssessmentTool(text)
  {
    var data := Normalize(text);
    FramingLengths();
    FrameLength(Title(Investment), LeadIn(Investment), data);
    FrameLength(Title(Risk), LeadIn(Risk), data);
  }

  /** The risk tool's header and lead-in are longer than the investment tool's. */
  lemma FramingLengths()
    ensures |Title(Investment)| + |LeadIn(Investment)| < |Title(Risk)| + |LeadIn(Risk)|
  {
    assert |InvestmentTitle| == 37 && |InvestmentLeadIn| == 59;
    assert |RiskTitle| == 31 && |RiskLeadIn| == 77;
  }

  lemma FrameLength(title: string, leadIn: string, data: string)
    ensures |Frame(title, leadIn, data)| == |title| + |leadIn| + |LengthLine(|data|)| + 4 + |data|
  {
  }
}
