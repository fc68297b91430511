/** The four analysis tasks: which upstream tasks each one receives as
    context, the fixed order the crew runs them in, and the description
    templates whose `{placeholders}` are filled from the kickoff inputs. */
module Tasks {

  import opened Results
  import opened PyStr

  datatype Stage = Verification | AnalyzeFinancialDocument | RiskAssessment | InvestmentAnalysis

  /** The `context=[...]` list of each task: the upstream tasks whose outputs it receives. */
  function Context(s: Stage): (c: seq<Stage>)
    ensures c == [] <==> s == Verification
    ensures s !in c
    ensures forall i, j :: 0 <= i < j < |c| ==> Position(c[i]) < Position(c[j])
  {
    match s
    case Verification => []
    case AnalyzeFinancialDocument => [Verification]
    case RiskAssessment => [AnalyzeFinancialDocument]
    case InvestmentAnalysis => [AnalyzeFinancialDocument, RiskAssessment]
  }

  /** The crew's `tasks=[...]` list, which the sequential process runs in order. */
  const CrewOrder: seq<Stage> := [Verification, AnalyzeFinancialDocument, RiskAssessment, InvestmentAnalysis]

  /** Where a stage sits in `CrewOrder`. */
  function Position(s: Stage): (i: nat)
    ensures i < |CrewOrder| && CrewOrder[i] == s
  {
    match s
    case Verification => 0
    case AnalyzeFinancialDocument => 1
    case RiskAssessment => 2
    case InvestmentAnalysis => 3
  }

  /** The crew runs every stage exactly once. */
  lemma CrewOrderIsPermutation()
    ensures forall s: Stage :: s in CrewOrder
    ensures forall i, j :: 0 <= i < j < |CrewOrder| ==> CrewOrder[i] != CrewOrder[j]
  {
    forall s: Stage ensures s in CrewOrder {
      assert CrewOrder[Position(s)] == s;
    }
  }

  /** The sequential order places every upstream stage strictly before the
      stage that receives its output. */
  lemma OrderRespectsContext(s: Stage, d: Stage)
    requires d in Context(s)
    ensures Position(d) < Position(s)
    ensures d in CrewOrder[..Position(s)]
  {
    assert CrewOrder[..Position(s)][Position(d)] == d;
  }

  /** A chain of stages, each one an upstream context of the one before it. */
  ghost predicate IsUpstreamPath(p: seq<Stage>) {
    |p| >= 1 && forall i :: 0 <= i < |p| - 1 ==> p[i + 1] in Context(p[i])
  }

  /** Following context links always moves earlier in the crew's order. */
  lemma {:induction false} UpstreamPathMovesEarlier(p: seq<Stage>)
    requires IsUpstreamPath(p) && |p| >= 2
    ensures Position(p[|p| - 1]) < Position(p[0])
    decreases |p|
  {
    OrderRespectsContext(p[0], p[1]);
    if |p| > 2 {
      var q := p[1..];
      assert forall i :: 0 <= i < |q| ==> q[i] == p[i + 1];
      UpstreamPathMovesEarlier(q);
    }
  }

  /** The context relation has no cycle. */
  lemma ContextIsAcyclic(p: seq<Stage>)
    requires IsUpstreamPath(p) && |p| >= 2
    ensures p[|p| - 1] != p[0]
  {
    UpstreamPathMovesEarlier(p);
  }

  /** No task lists `s` as context. */
  ghost predicate IsSink(s: Stage) {
    forall t: Stage :: s !in Context(t)
  }

  /** The investment analysis is the one stage whose output feeds no other
      stage, and it is the last stage the crew runs, so its output is the
      crew's result. */
  lemma InvestmentAnalysisIsUniqueSink(s: Stage)
    ensures IsSink(s) <==> s == InvestmentAnalysis
    ensures CrewOrder[|CrewOrder| - 1] == InvestmentAnalysis
  {
    if s == InvestmentAnalysis {
      forall t: Stage ensures s !in Context(t) {
        match t
        case Verification =>
        case AnalyzeFinancialDocument =>
        case RiskAssessment =>
        case InvestmentAnalysis =>
      }
    } else if s == Verification {
      assert s in Context(AnalyzeFinancialDocument);
    } else if s == AnalyzeFinancialDocument {
      assert s in Context(RiskAssessment);
    } else {
      assert s in Context(InvestmentAnalysis);
    }
  }

  // ---------------------------------------------------------------------
  // Description templates
  // ---------------------------------------------------------------------

  /** Text without braces: nothing in it can be read as a placeholder. */
  type PlainChar = c: char | c != '{' && c != '}' witness 'a'
  type Prose = seq<PlainChar>

  /** A piece of a description: literal text or a `{key}` placeholder. */
  datatype Piece = Text(text: Prose) | Slot(key: Prose)

  /** The literal text of the four descriptions, in short pieces. */
  const Verify0: Prose := "Verify the contents "
  const Verify1: Prose := "of the uploaded "
  const Verify2: Prose := "file located at "
  const Verify3: Prose := "path: "
  const Verify4: Prose := ". Read the document "
  const Verify5: Prose := "using the provided "
  const Verify6: Prose := "tool and determine "
  const Verify7: Prose := "if it is a "
  const Verify8: Prose := "legitimate "
  const Verify9: Prose := "financial report, "
  const Verify10: Prose := "earnings update, or "
  const Verify11: Prose := "corporate filing. "
  const Verify12: Prose := "If it is NOT a "
  const Verify13: Prose := "financial document, "
  const Verify14: Prose := "immediately halt "
  const Verify15: Prose := "and report the "
  const Verify16: Prose := "error. If it is, "
  const Verify17: Prose := "extract the core "
  const Verify18: Prose := "subject matter, the "
  const Verify19: Prose := "company name, and "
  const Verify20: Prose := "the reporting "
  const Verify21: Prose := "period."
  const Analyze0: Prose := "Based on the "
  const Analyze1: Prose := "verified document "
  const Analyze2: Prose := "at "
  const Analyze3: Prose := ", analyze the "
  const Analyze4: Prose := "financial data to "
  const Analyze5: Prose := "answer the user's "
  const Analyze6: Prose := "specific query: '"
  const Analyze7: Prose := "'. Extract key "
  const Analyze8: Prose := "performance "
  const Analyze9: Prose := "indicators (KPIs) "
  const Analyze10: Prose := "such as total "
  const Analyze11: Prose := "revenues, profit "
  const Analyze12: Prose := "margins, "
  const Analyze13: Prose := "delivery/production "
  const Analyze14: Prose := "numbers, and cash "
  const Analyze15: Prose := "flow. Focus ONLY on "
  const Analyze16: Prose := "the hard data "
  const Analyze17: Prose := "explicitly stated "
  const Analyze18: Prose := "in the document. Do "
  const Analyze19: Prose := "not invent or "
  const Analyze20: Prose := "estimate metrics."
  const Risk0: Prose := "Analyze the "
  const Risk1: Prose := "financial data from "
  const Risk2: Prose := " for stated "
  const Risk3: Prose := "operational and "
  const Risk4: Prose := "market risks. "
  const Risk5: Prose := "Identify "
  const Risk6: Prose := "macroeconomic "
  const Risk7: Prose := "headwinds, "
  const Risk8: Prose := "production "
  const Risk9: Prose := "bottlenecks, supply "
  const Risk10: Prose := "chain issues, "
  const Risk11: Prose := "shifting tariffs, "
  const Risk12: Prose := "or debt liabilities "
  const Risk13: Prose := "explicitly "
  const Risk14: Prose := "mentioned by the "
  const Risk15: Prose := "company in the "
  const Risk16: Prose := "text. Do not invent "
  const Risk17: Prose := "catastrophic "
  const Risk18: Prose := "scenarios."
  const Invest0: Prose := "Synthesize the "
  const Invest1: Prose := "financial "
  const Invest2: Prose := "performance and "
  const Invest3: Prose := "risk assessments to "
  const Invest4: Prose := "provide a "
  const Invest5: Prose := "conservative, "
  const Invest6: Prose := "data-driven "
  const Invest7: Prose := "investment outlook. "
  const Invest8: Prose := "Address the user's "
  const Invest9: Prose := "exact query: '"
  const Invest10: Prose := "'. Base your "
  const Invest11: Prose := "conclusions "
  const Invest12: Prose := "entirely on the "
  const Invest13: Prose := "extracted metrics "
  const Invest14: Prose := "and stated risks. "
  const Invest15: Prose := "Do NOT recommend "
  const Invest16: Prose := "speculative trades, "
  const Invest17: Prose := "meme stocks, or "
  const Invest18: Prose := "invent financial "
  const Invest19: Prose := "models."

  /** Each task's description: its literal text around its placeholders.
      The three tasks that read the document take `{file_path}`, and the
      two that answer the user take `{query}`. */
  function Template(s: Stage): (t: seq<Piece>)
    ensures Slots(t) == match s
      case Verification => ["file_path"]
      case AnalyzeFinancialDocument => ["file_path", "query"]
      case RiskAssessment => ["file_path"]
      case InvestmentAnalysis => ["query"]
  {
    match s
    case Verification =>
      Around(Verify0 + Verify1 + Verify2 + Verify3, "file_path", Verify4 + Verify5 + Verify6 + Verify7 + Verify8 + Verify9 + Verify10 + Verify11 + Verify12 + Verify13 + Verify14 + Verify15 + Verify16 + Verify17 + Verify18 + Verify19 + Verify20 + Verify21)
    case AnalyzeFinancialDocument =>
      Between(Analyze0 + Analyze1 + Analyze2, "file_path", Analyze3 + Analyze4 + Analyze5 + Analyze6, "query", Analyze7 + Analyze8 + Analyze9 + Analyze10 + Analyze11 + Analyze12 + Analyze13 + Analyze14 + Analyze15 + Analyze16 + Analyze17 + Analyze18 + Analyze19 + Analyze20)
    case RiskAssessment =>
      Around(Risk0 + Risk1, "file_path", Risk2 + Risk3 + Risk4 + Risk5 + Risk6 + Risk7 + Risk8 + Risk9 + Risk10 + Risk11 + Risk12 + Risk13 + Risk14 + Risk15 + Risk16 + Risk17 + Risk18)
    case InvestmentAnalysis =>
      Around(Invest0 + Invest1 + Invest2 + Invest3 + Invest4 + Invest5 + Invest6 + Invest7 + Invest8 + Invest9, "query", Invest10 + Invest11 + Invest12 + Invest13 + Invest14 + Invest15 + Invest16 + Invest17 + Invest18 + Invest19)
  }

  /** Text, one placeholder, text. */
  function Around(a: Prose, k: Prose, b: Prose): (t: seq<Piece>)
    ensures Slots(t) == [k]
  {
    SlotsAround(a, k, b);
    [Text(a), Slot(k), Text(b)]
  }

  /** Text, a placeholder, text, a second placeholder, text. */
  function Between(a: Prose, k1: Prose, b: Prose, k2: Prose, c: Prose): (t: seq<Piece>)
    ensures Slots(t) == [k1, k2]
  {
    SlotsBetween(a, k1, b, k2, c);
    [Text(a), Slot(k1), Text(b), Slot(k2), Text(c)]
  }

  function PieceText(p: Piece): string
  {
    match p
    case Text(t) => t
    case Slot(k) => "{" + k + "}"
  }

  /** The description string a template stands for. */
  function Render(t: seq<Piece>): string
  {
    if t == [] then [] else PieceText(t[0]) + Render(t[1..])
  }

  /** The task's `description=` string: its `{...}` placeholders are
      exactly its template's slots. */
  function Description(s: Stage): (d: string)
    ensures Placeholders(d) == Slots(Template(s))
  {
    PlaceholdersOfRender(Template(s));
    Render(Template(s))
  }

  /** The keys of a template's slots, in order. */
  function Slots(t: seq<Piece>): seq<string>
  {
    if t == [] then []
    else (if t[0].Slot? then [t[0].key] else []) + Slots(t[1..])
  }

  predicate Braceless(s: string) {
    '{' !in s && '}' !in s
  }

  lemma ProseIsBraceless(p: Prose)
    ensures Braceless(p)
  {
  }

  /** The placeholders of a description, in order: each `{`, up to the next `}`. */
  function Placeholders(s: string): seq<string>
    decreases |s|
  {
    if s == [] then []
    else if s[0] != '{' then Placeholders(s[1..])
    else
      match Find(s[1..], '}')
      case None => []
      case Some(k) => [s[1..k + 1]] + Placeholders(s[k + 2..])
  }

  /** The kickoff inputs: `{'query': query, 'file_path': file_path}`. */
  function KickoffInputs(query: string, filePath: string): (inputs: map<string, string>)
    ensures forall s: Stage :: forall k :: k in Slots(Template(s)) ==> k in inputs
    ensures "query" in inputs && inputs["query"] == query
    ensures "file_path" in inputs && inputs["file_path"] == filePath
  {
    map["query" := query, "file_path" := filePath]
  }

  /** Fills every placeholder of `s` from `inputs`; a placeholder with no
      input is an error naming the missing key. */
  function Interpolate(s: string, inputs: map<string, string>): (r: Result<string, string>)
    ensures r.Success? <==> forall k :: k in Placeholders(s) ==> k in inputs
    ensures r.Failure? ==> r.error in Placeholders(s) && r.error !in inputs
    decreases |s|
  {
    if s == [] then Success([])
    else if s[0] != '{' then
      match Interpolate(s[1..], inputs)
      case Failure(e) => Failure(e)
      case Success(v) => Success([s[0]] + v)
    else
      match Find(s[1..], '}')
      case None => Success(s)
      case Some(k) =>
        var key := s[1..k + 1];
        if key !in inputs then Failure(key)
        else
          match Interpolate(s[k + 2..], inputs)
          case Failure(e) => Failure(e)
          case Success(v) => Success(inputs[key] + v)
  }

  /** The text a template stands for once each slot is replaced by its input. */
  function Fill(t: seq<Piece>, inputs: map<string, string>): string
    requires forall k :: k in Slots(t) ==> k in inputs
  {
    if t == [] then []
    else
      assert t[0].Slot? ==> t[0].key in Slots(t);
      var first := match t[0]
        case Text(x) => x
        case Slot(k) => inputs[k];
      first + Fill(t[1..], inputs)
  }

  /** Interpolation copies a character other than `{` and goes on. */
  lemma InterpolatePlainChar(c: char, rest: string, inputs: map<string, string>)
    requires c != '{'
    ensures Interpolate([c] + rest, inputs) == match Interpolate(rest, inputs)
      case Success(v) => Success([c] + v)
      case Failure(e) => Failure(e)
  {
    assert ([c] + rest)[1..] == rest;
  }

  /** Interpolation passes over text without braces unchanged. */
  lemma {:induction false} InterpolateSkipText(x: string, rest: string, inputs: map<string, string>)
    requires Braceless(x)
    ensures Interpolate(rest, inputs).Success? ==> Interpolate(x + rest, inputs) == Success(x + Interpolate(rest, inputs).value)
    ensures Interpolate(rest, inputs).Failure? ==> Interpolate(x + rest, inputs) == Interpolate(rest, inputs)
  {
    if x == [] {
      assert x + rest == rest;
      if Interpolate(rest, inputs).Success? {
        assert x + Interpolate(rest, inputs).value == Interpolate(rest, inputs).value;
      }
    } else {
      assert x[0] in x;
      assert forall c :: c in x[1..] ==> c in x;
      InterpolateSkipText(x[1..], rest, inputs);
      InterpolatePlainChar(x[0], x[1..] + rest, inputs);
      assert x + rest == [x[0]] + (x[1..] + rest);
      if Interpolate(rest, inputs).Success? {
        var v := Interpolate(rest, inputs).value;
        assert [x[0]] + (x[1..] + v) == x + v;
      }
    }
  }

  /** Interpolation replaces a placeholder with a known key by its input. */
  lemma InterpolateSlot(key: string, rest: string, inputs: map<string, string>)
    requires Braceless(key) && key in inputs
    ensures Interpolate("{" + key + "}" + rest, inputs) == match Interpolate(rest, inputs)
      case Success(v) => Success(inputs[key] + v)
      case Failure(e) => Failure(e)
  {
    var s := "{" + key + "}" + rest;
    assert s[0] == '{';
    assert s[1..] == key + ['}'] + rest;
    FindAfter(key, '}', rest);
    assert s[1..|key| + 1] == key;
    assert s[|key| + 2..] == rest;
  }

  /** Interpolating a rendered template whose every slot has an input gives
      the template with each slot replaced by that input. */
  lemma {:induction false} InterpolateRender(t: seq<Piece>, inputs: map<string, string>)
    requires forall k :: k in Slots(t) ==> k in inputs
    ensures Interpolate(Render(t), inputs) == Success(Fill(t, inputs))
  {
    if t != [] {
      assert forall k :: k in Slots(t[1..]) ==> k in Slots(t);
      InterpolateRender(t[1..], inputs);
      match t[0]
      case Text(x) =>
        ProseIsBraceless(x);
        InterpolateSkipText(x, Render(t[1..]), inputs);
      case Slot(k) =>
        ProseIsBraceless(k);
        assert k in Slots(t);
        InterpolateSlot(k, Render(t[1..]), inputs);
    }
  }

  lemma {:induction false} PlaceholdersSkipText(x: string, rest: string)
    requires Braceless(x)
    ensures Placeholders(x + rest) == Placeholders(rest)
  {
    if x != [] {
      assert x[0] in x;
      assert (x + rest)[0] == x[0];
      assert (x + rest)[1..] == x[1..] + rest;
      assert forall c :: c in x[1..] ==> c in x;
      assert (x + rest)[0] != '{';
      assert Placeholders(x + rest) == Placeholders(x[1..] + rest);
      PlaceholdersSkipText(x[1..], rest);
    } else {
      assert x + rest == rest;
    }
  }

  lemma PlaceholdersOfSlot(key: string, rest: string)
    requires Braceless(key)
    ensures Placeholders("{" + key + "}" + rest) == [key] + Placeholders(rest)
  {
    var s := "{" + key + "}" + rest;
    assert s[0] == '{';
    assert s[1..] == key + ['}'] + rest;
    FindAfter(key, '}', rest);
    assert s[1..|key| + 1] == key;
    assert s[|key| + 2..] == rest;
  }

  /** The placeholders found in a well-formed template's text are exactly its slots. */
  lemma {:induction false} PlaceholdersOfRender(t: seq<Piece>)
    ensures Placeholders(Render(t)) == Slots(t)
  {
    if t != [] {
      PlaceholdersOfRender(t[1..]);
      match t[0]
      case Text(x) =>
        ProseIsBraceless(x);
        PlaceholdersSkipText(x, Render(t[1..]));
      case Slot(k) =>
        ProseIsBraceless(k);
        PlaceholdersOfSlot(k, Render(t[1..]));
    }
  }

  lemma SlotsAround(a: Prose, k: Prose, b: Prose)
    ensures Slots([Text(a), Slot(k), Text(b)]) == [k]
  {
    assert [Text(b)][1..] == [];
    assert Slots([Text(b)]) == [];
    assert [Slot(k), Text(b)][1..] == [Text(b)];
    assert Slots([Slot(k), Text(b)]) == [k];
    assert [Text(a), Slot(k), Text(b)][1..] == [Slot(k), Text(b)];
  }

  lemma SlotsBetween(a: Prose, k1: Prose, b: Prose, k2: Prose, c: Prose)
    ensures Slots([Text(a), Slot(k1), Text(b), Slot(k2), Text(c)]) == [k1, k2]
  {
    assert [Text(a), Slot(k1), Text(b), Slot(k2), Text(c)][1..] == [Slot(k1), Text(b), Slot(k2), Text(c)];
    assert [Slot(k1), Text(b), Slot(k2), Text(c)][1..] == [Text(b), Slot(k2), Text(c)];
    SlotsAround(b, k2, c);
  }

  /** Interpolating a description with the kickoff inputs fills its
      template's `{query}` and `{file_path}` slots with the query and the
      file path. */
  lemma DescriptionsFill(s: Stage, query: string, filePath: string)
    ensures forall k :: k in Slots(Template(s)) ==> k in KickoffInputs(query, filePath)
    ensures Interpolate(Description(s), KickoffInputs(query, filePath))
      == Success(Fill(Template(s), KickoffInputs(query, filePath)))
  {
    InterpolateRender(Template(s), KickoffInputs(query, filePath));
  }
}
