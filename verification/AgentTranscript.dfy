/** The prompt text of an agent run: how the driver writes it, rebuilds it and counts tool calls in it. */
module AgentTranscript {
  import opened Options

  // ---------- the journal and the text of its steps ----------

  /** A journaled step; an external call stores its two names as one string and its key as a number. */
  datatype Step =
    | RunStart(question: string)
    | Search(query: string, results: seq<string>)
    | Remember(content: string)
    | External(tool: string, key: nat, result: string)
    | HitlRequest(prompt: string)
    | HitlResolve(approved: bool)
    | LlmAnswer(answer: string)

  function Join(parts: seq<string>): string {
    if parts == [] then "" else if |parts| == 1 then parts[0] else parts[0] + " | " + Join(parts[1..])
  }

  /** Split at the first `c`. */
  function SplitOnce(s: string, c: char): (r: Option<(string, string)>)
    ensures r.None? <==> c !in s
    ensures r.Some? ==> s == r.value.0 + [c] + r.value.1 && c !in r.value.0
  {
    if s == [] then None
    else if s[0] == c then Some(([], s[1..]))
    else
      match SplitOnce(s[1..], c)
      case None => None
      case Some((a, b)) => Some(([s[0]] + a, b))
  }

  lemma {:induction false} SplitOnceAt(a: string, c: char, b: string)
    requires c !in a
    ensures SplitOnce(a + [c] + b, c) == Some((a, b))
  {
    var s := a + [c] + b;
    if a == [] {
      assert s[1..] == b;
    } else {
      SplitOnceAt(a[1..], c, b);
      assert s[1..] == a[1..] + [c] + b;
      assert [a[0]] + a[1..] == a;
    }
  }

  /** One line of the assistant and the observation that answers it. */
  function Exchange(head: string, body: string, result: string): string {
    head + (body + (Observation + (result + LineEnd)))
  }

  const Observation := "\nObservation: "
  const LineEnd := "\n"
  const Assistant := "Assistant: "
  const Marker := "TOOL call "

  function CallLine(server: string, tool: string, result: string): string {
    Exchange(Assistant + Marker, server + " " + tool, result)
  }

  function Names(tool: string): (string, string) {
    match SplitOnce(tool, '/')
    case Some(names) => names
    case None => (tool, "")
  }

  /** The text a journaled step is given on resume. */
  function Rendered(step: Step): string {
    match step
    case RunStart(question) => "Question: " + (question + LineEnd)
    case Search(query, results) => Exchange(Assistant + "TOOL search: ", query, Join(results))
    case Remember(content) => Exchange(Assistant + "TOOL remember: ", content, "stored")
    case External(tool, _, result) => CallLine(Names(tool).0, Names(tool).1, result)
    case HitlRequest(prompt) => Exchange(Assistant + "requested approval for: ", prompt, "approved")
    case HitlResolve(_) => ""
    case LlmAnswer(_) => ""
  }

  function Cat(lines: seq<string>): string {
    if lines == [] then "" else Cat(lines[..|lines| - 1]) + lines[|lines| - 1]
  }

  function Lines(journal: seq<Step>): seq<string> {
    seq(|journal|, i requires 0 <= i < |journal| => Rendered(journal[i]))
  }

  function Rebuilt(journal: seq<Step>): string {
    Cat(Lines(journal))
  }

  lemma CatSnoc(lines: seq<string>, line: string)
    ensures Cat(lines + [line]) == Cat(lines) + line
  {
    assert (lines + [line])[..|lines|] == lines;
  }

  lemma RebuiltSnoc(journal: seq<Step>, step: Step)
    ensures Rebuilt(journal + [step]) == Rebuilt(journal) + Rendered(step)
  {
    CatSnoc(Lines(journal), Rendered(step));
    assert Lines(journal + [step]) == Lines(journal) + [Rendered(step)];
  }

  method RebuildTranscript(journal: seq<Step>) returns (t: string)
    ensures t == Rebuilt(journal)
  {
    t := "";
    for i := 0 to |journal|
      invariant t == Rebuilt(journal[..i])
    {
      RebuiltSnoc(journal[..i], journal[i]);
      assert journal[..i + 1] == journal[..i] + [journal[i]];
      t := t + Rendered(journal[i]);
    }
    assert journal[..|journal|] == journal;
  }

  /** The names an external call was made with. */
  datatype Call = Call(server: string, tool: string)

  /** The steps after which the live loop goes on. */
  predicate LoopStep(step: Step) {
    step.Search? || step.Remember? || step.External?
  }

  /** The text the live loop adds for a step it journals; it writes its own, it does not render the journal. */
  function LiveLine(step: Step, call: Call): string {
    match step
    case Search(query, results) => "Assistant: TOOL search: " + query + "\nObservation: " + Join(results) + "\n"
    case Remember(content) => "Assistant: TOOL remember: " + content + "\nObservation: stored\n"
    case External(_, _, result) => "Assistant: TOOL call " + call.server + " " + call.tool + "\nObservation: " + result + "\n"
    case _ => ""
  }

  /** `journal[i]` stores the names of `calls[i]`, which are free of blanks and line ends. */
  predicate Records(step: Step, call: Call) {
    step.External? ==> step.tool == call.server + "/" + call.tool && Token(call.server) && Token(call.tool)
  }

  predicate Token(s: string) {
    ' ' !in s && '\n' !in s
  }

  predicate Aligned(journal: seq<Step>, calls: seq<Call>) {
    |calls| == |journal| && forall i :: 0 <= i < |journal| ==> Records(journal[i], calls[i])
  }

  /** What the live loop added for steps `from`, ..., `end - 1`. */
  function LiveLines(journal: seq<Step>, calls: seq<Call>, from: nat, end: nat): seq<string>
    requires |calls| == |journal| && from <= end <= |journal|
  {
    seq(end - from, i requires 0 <= i < end - from => LiveLine(journal[from + i], calls[from + i]))
  }

  /** The prompt of a driver that read `base` steps and took over at `from`, once the journal has `end` steps. */
  function Showing(journal: seq<Step>, calls: seq<Call>, base: nat, from: nat, end: nat): string
    requires |calls| == |journal| && base <= from <= end <= |journal|
  {
    Cat(Lines(journal[..base]) + LiveLines(journal, calls, from, end))
  }

  predicate LoopSteps(journal: seq<Step>, from: nat, end: nat)
    requires end <= |journal|
  {
    forall i :: from <= i < end ==> LoopStep(journal[i])
  }

  predicate Slashless(journal: seq<Step>, calls: seq<Call>, from: nat, end: nat)
    requires |calls| == |journal| && from <= end <= |journal|
  {
    forall i :: from <= i < end && journal[i].External? ==> '/' !in calls[i].server
  }

  // ---------- what the lines say ----------

  lemma Flat(h: string, b: string, o: string, r: string, e: string)
    ensures h + b + o + r + e == h + (b + (o + (r + e)))
  {
    assert h + b + o == h + (b + o);
    assert h + (b + o) + r == h + (b + (o + r));
  }

  /** The text of an exchange written out from left to right. */
  lemma ExchangeText(head: string, body: string, result: string)
    ensures Exchange(head, body, result) == head + body + "\nObservation: " + result + "\n"
  {
    Flat(head, body, Observation, result, LineEnd);
  }

  lemma CallText(server: string, tool: string, result: string)
    ensures CallLine(server, tool, result) == "Assistant: TOOL call " + server + " " + tool + "\nObservation: " + result + "\n"
  {
    ExchangeText(Assistant + Marker, server + " " + tool, result);
    CallHead();
    NamesFlat("Assistant: TOOL call ", server, tool);
  }

  lemma CallHead()
    ensures Assistant + Marker == "Assistant: TOOL call "
  {
  }

  lemma NamesFlat(head: string, server: string, tool: string)
    ensures head + (server + " " + tool) == head + server + " " + tool
  {
  }

  /** What each journaled step is rebuilt as, character by character. */
  lemma RenderedText(step: Step)
    ensures step.RunStart? ==> Rendered(step) == "Question: " + step.question + "\n"
    ensures step.Search? ==> Rendered(step) == "Assistant: TOOL search: " + step.query + "\nObservation: " + Join(step.results) + "\n"
    ensures step.Remember? ==> Rendered(step) == "Assistant: TOOL remember: " + step.content + "\nObservation: " + "stored" + "\n"
    ensures step.HitlRequest? ==> Rendered(step) == "Assistant: requested approval for: " + step.prompt + "\nObservation: " + "approved" + "\n"
    ensures step.HitlResolve? || step.LlmAnswer? ==> Rendered(step) == ""
  {
    match step
    case RunStart(question) => assert "Question: " + question + "\n" == "Question: " + (question + "\n");
    case Search(query, results) => ExchangeText("Assistant: TOOL search: ", query, Join(results)); SearchHead();
    case Remember(content) => ExchangeText("Assistant: TOOL remember: ", content, "stored"); RememberHead();
    case HitlRequest(prompt) => ExchangeText("Assistant: requested approval for: ", prompt, "approved"); ApprovalHead();
    case _ =>
  }

  lemma SearchHead()
    ensures Assistant + "TOOL search: " == "Assistant: TOOL search: "
  {
  }

  lemma RememberHead()
    ensures Assistant + "TOOL remember: " == "Assistant: TOOL remember: "
  {
  }

  lemma ApprovalHead()
    ensures Assistant + "requested approval for: " == "Assistant: requested approval for: "
  {
  }

  /** The first line of an exchange ends where its body does, and what was observed is the rest. */
  lemma ExchangeSays(head: string, body: string, result: string)
    requires '\n' !in head && '\n' !in body
    ensures SplitOnce(Exchange(head, body, result), '\n') == Some((head + body, "Observation: " + result + "\n"))
  {
    var rest := "Observation: " + result + "\n";
    ExchangeText(head, body, result);
    SplitOnceAt(head + body, '\n', rest);
    ObservationFlat(head + body, result);
  }

  lemma ObservationFlat(line: string, result: string)
    ensures line + ['\n'] + ("Observation: " + result + "\n") == line + "\nObservation: " + result + "\n"
  {
    assert "\nObservation: " == ['\n'] + "Observation: ";
    assert line + (['\n'] + "Observation: ") == line + ['\n'] + "Observation: ";
  }

  /** Query, results, content, approval prompt and names can be read back from the lines that carry them. */
  lemma LinesSay(step: Step)
    ensures step.Search? && '\n' !in step.query ==>
              SplitOnce(Rendered(step), '\n') == Some(("Assistant: TOOL search: " + step.query, "Observation: " + Join(step.results) + "\n"))
    ensures step.Remember? && '\n' !in step.content ==>
              SplitOnce(Rendered(step), '\n') == Some(("Assistant: TOOL remember: " + step.content, "Observation: " + "stored" + "\n"))
    ensures step.HitlRequest? && '\n' !in step.prompt ==>
              SplitOnce(Rendered(step), '\n') == Some(("Assistant: requested approval for: " + step.prompt, "Observation: " + "approved" + "\n"))
  {
    match step
    case Search(query, results) =>
      SearchHead();
      if '\n' !in query { ExchangeSays("Assistant: TOOL search: ", query, Join(results)); }
    case Remember(content) =>
      RememberHead();
      if '\n' !in content { ExchangeSays("Assistant: TOOL remember: ", content, "stored"); }
    case HitlRequest(prompt) =>
      ApprovalHead();
      if '\n' !in prompt { ExchangeSays("Assistant: requested approval for: ", prompt, "approved"); }
    case _ =>
  }

  lemma CallSays(server: string, tool: string, result: string)
    requires Token(server) && Token(tool)
    ensures SplitOnce(CallLine(server, tool, result), '\n') == Some(("Assistant: TOOL call " + (server + " " + tool), "Observation: " + result + "\n"))
  {
    CallHead();
    ExchangeSays("Assistant: TOOL call ", server + " " + tool, result);
  }

  /** Results are listed in order with a bar between them. */
  lemma {:induction false} JoinSnoc(parts: seq<string>, last: string)
    ensures Join(parts + [last]) == if parts == [] then last else Join(parts) + " | " + last
  {
    if |parts| > 0 {
      assert (parts + [last])[1..] == parts[1..] + [last];
      JoinSnoc(parts[1..], last);
      if |parts| == 1 {
        assert parts[1..] == [];
      } else {
        Flat(parts[0], " | ", Join(parts[1..]), " | ", last);
        assert parts[0] + " | " + (Join(parts[1..]) + " | " + last) == parts[0] + " | " + Join(parts[1..]) + " | " + last;
      }
    }
  }

  /** The live loop's own text is what the journaled step would be rebuilt as, given the names it was called with. */
  lemma LiveIs(step: Step, call: Call)
    requires LoopStep(step)
    ensures LiveLine(step, call) == if step.External? then CallLine(call.server, call.tool, step.result) else Rendered(step)
  {
    RenderedText(step);
    match step
    case External(_, _, result) => CallText(call.server, call.tool, result);
    case Remember(content) => StoredFlat("Assistant: TOOL remember: " + content);
    case _ =>
  }

  lemma StoredFlat(line: string)
    ensures line + "\nObservation: stored\n" == line + "\nObservation: " + "stored" + "\n"
  {
    assert "\nObservation: stored\n" == "\nObservation: " + "stored" + "\n";
    assert line + ("\nObservation: " + "stored") == line + "\nObservation: " + "stored";
  }

  // ---------- the rebuilt line is the live line exactly when the server name has no slash ----------

  lemma LineFaithfulIff(step: Step, call: Call)
    requires Records(step, call) && LoopStep(step)
    ensures |Rendered(step)| == |LiveLine(step, call)|
    ensures Rendered(step) == LiveLine(step, call) <==> (step.External? ==> '/' !in call.server)
  {
    LiveIs(step, call);
    if step.External? {
      var tool := step.tool;
      assert tool == call.server + ['/'] + call.tool;
      assert '/' in tool;
      if '/' !in call.server {
        SplitOnceAt(call.server, '/', call.tool);
      } else {
        LineDiffers(step, call);
      }
    }
  }

  lemma LineDiffers(step: Step, call: Call)
    requires step.External? && Records(step, call) && '/' in call.server
    ensures var line := CallLine(call.server, call.tool, step.result); |Rendered(step)| == |line| && Rendered(step) != line
  {
    var (a, b) := SplitOnce(call.server, '/').value;
    var rest := b + ['/'] + call.tool;
    assert step.tool == a + ['/'] + rest;
    SplitOnceAt(a, '/', rest);
    NamesShift(a, b, call.tool);
    BodiesDiffer(Assistant + Marker, a, ['/'] + b + " " + call.tool, [' '] + rest, Observation + (step.result + LineEnd));
  }

  lemma NamesShift(a: string, b: string, tool: string)
    ensures (a + ['/'] + b) + " " + tool == a + (['/'] + b + " " + tool)
    ensures a + " " + (b + ['/'] + tool) == a + ([' '] + (b + ['/'] + tool))
  {
  }

  lemma BodiesDiffer(head: string, a: string, x: string, y: string, tail: string)
    requires |x| == |y| > 0 && x[0] != y[0]
    ensures |head + ((a + x) + tail)| == |head + ((a + y) + tail)|
    ensures head + ((a + x) + tail) != head + ((a + y) + tail)
  {
    var p := |head| + |a|;
    assert (head + ((a + x) + tail))[p] == x[0];
    assert (head + ((a + y) + tail))[p] == y[0];
  }

  lemma SameLengthSplit(a: string, b: string, c: string, d: string)
    requires |a| == |b|
    ensures a + c == b + d <==> a == b && c == d
  {
    if a + c == b + d {
      assert a == (a + c)[..|a|] && c == (a + c)[|a|..];
      assert b == (b + d)[..|a|] && d == (b + d)[|a|..];
    }
  }

  /** Lines of equal lengths join to the same text only if they are the same lines. */
  lemma {:induction false} CatInjective(a: seq<string>, b: seq<string>)
    requires |a| == |b| && forall i :: 0 <= i < |a| ==> |a[i]| == |b[i]|
    ensures |Cat(a)| == |Cat(b)| && (Cat(a) == Cat(b) <==> a == b)
  {
    if a != [] {
      var n := |a| - 1;
      CatInjective(a[..n], b[..n]);
      SameLengthSplit(Cat(a[..n]), Cat(b[..n]), a[n], b[n]);
      assert a == b <==> a[..n] == b[..n] && a[n] == b[n] by {
        assert a == a[..n] + [a[n]] && b == b[..n] + [b[n]];
      }
    }
  }

  /** A prompt grown live from a rebuilt one equals the rebuilt prompt exactly while no server name had a slash. */
  lemma PromptFaithfulIff(journal: seq<Step>, calls: seq<Call>, from: nat, end: nat)
    requires Aligned(journal, calls) && from <= end <= |journal| && LoopSteps(journal, from, end)
    ensures Showing(journal, calls, from, from, end) == Rebuilt(journal[..end]) <==> Slashless(journal, calls, from, end)
  {
    var a, b := Lines(journal[..from]) + LiveLines(journal, calls, from, end), Lines(journal[..end]);
    forall i | 0 <= i < end
      ensures |a[i]| == |b[i]| && (a[i] == b[i] <==> i < from || (journal[i].External? ==> '/' !in calls[i].server))
    {
      if from <= i {
        LineFaithfulIff(journal[i], calls[i]);
      }
    }
    CatInjective(a, b);
  }

  // ---------- counting the marker ----------

  /** Non-overlapping matches from left to right. */
  function MatchCount(s: string): nat {
    if |s| < |Marker| then 0
    else if Marker <= s then 1 + MatchCount(s[|Marker|..])
    else MatchCount(s[1..])
  }

  /** Positions at which the marker starts. */
  function Starts(s: string): nat {
    if s == [] then 0 else (if Marker <= s then 1 else 0) + Starts(s[1..])
  }

  lemma {:induction false} NoStarts(s: string)
    requires forall p :: 0 <= p < |s| ==> !(Marker <= s[p..])
    ensures Starts(s) == 0
  {
    if s != [] {
      assert s[0..] == s;
      forall p | 0 <= p < |s[1..]|
        ensures !(Marker <= s[1..][p..])
      {
        assert s[1..][p..] == s[p + 1..];
      }
      NoStarts(s[1..]);
    }
  }

  /** No match begins among the last characters of `a` and ends in `b`. */
  ghost predicate Seam(a: string, b: string) {
    forall p :: 0 <= p < |a| < p + |Marker| ==> !(Marker <= (a + b)[p..])
  }

  lemma {:induction false} StartsSplit(a: string, b: string)
    ensures Starts(a) + Starts(b) <= Starts(a + b)
    ensures Seam(a, b) ==> Starts(a + b) == Starts(a) + Starts(b)
  {
    if a == [] {
      assert a + b == b;
    } else {
      var s := a + b;
      assert s[1..] == a[1..] + b;
      StartsSplit(a[1..], b);
      if |Marker| <= |a| {
        assert a[..|Marker|] == s[..|Marker|];
      }
      if Seam(a, b) {
        forall p | 0 <= p < |a[1..]| < p + |Marker|
          ensures !(Marker <= (a[1..] + b)[p..])
        {
          assert s[p + 1..] == (a[1..] + b)[p..];
        }
        assert s[0..] == s;
      }
    }
  }

  /** A match spans every character up to its end. */
  lemma MatchSpans(s: string, p: nat, q: nat)
    requires p <= q < |s| && q < p + |Marker| && Marker <= s[p..]
    ensures s[q] == Marker[q - p]
  {
    assert s[p..][q - p] == s[q];
  }

  lemma LineSeam(a: string, b: string)
    requires a == "" || a[|a| - 1] == '\n' || (b != "" && b[0] == '\n')
    ensures Seam(a, b)
  {
    var s := a + b;
    if a != "" {
      var q := if a[|a| - 1] == '\n' then |a| - 1 else |a|;
      assert s[q] == '\n';
      forall p | 0 <= p < |a| < p + |Marker|
        ensures !(Marker <= s[p..])
      {
        if Marker <= s[p..] {
          MatchSpans(s, p, q);
        }
      }
    }
  }

  lemma HeadSeam(a: string, b: string)
    requires forall p :: 0 <= p < |a| < p + |Marker| ==> a[p] != 'T'
    ensures Seam(a, b)
  {
    forall p | 0 <= p < |a| < p + |Marker|
      ensures !(Marker <= (a + b)[p..])
    {
      if Marker <= (a + b)[p..] {
        MatchSpans(a + b, p, p);
      }
    }
  }

  lemma {:induction false} MatchCountIsStarts(s: string)
    ensures MatchCount(s) == Starts(s)
    decreases |s|
  {
    if |s| < |Marker| {
      NoStarts(s);
    } else if Marker <= s {
      var rest := s[|Marker|..];
      MatchCountIsStarts(rest);
      var tail := s[1..|Marker|];
      assert s[1..] == tail + rest;
      assert tail == Marker[1..];
      HeadSeam(tail, rest);
      StartsSplit(tail, rest);
      NoStarts(tail);
    } else {
      MatchCountIsStarts(s[1..]);
    }
  }

  // ---------- how many matches a rebuilt transcript holds ----------

  /** Matches in the free text of a step: what is not put there by the driver itself. */
  function Stray(step: Step): nat {
    match step
    case RunStart(question) => Starts(question)
    case Search(query, results) => Starts(query) + Starts(Join(results))
    case Remember(content) => Starts(content)
    case External(_, _, result) => Starts(result)
    case HitlRequest(prompt) => Starts(prompt)
    case HitlResolve(_) => 0
    case LlmAnswer(_) => 0
  }

  function Strays(journal: seq<Step>): nat {
    if journal == [] then 0 else Strays(journal[..|journal| - 1]) + Stray(journal[|journal| - 1])
  }

  function Calls(journal: seq<Step>): nat {
    if journal == [] then 0
    else Calls(journal[..|journal| - 1]) + (if journal[|journal| - 1].External? then 1 else 0)
  }

  predicate StepToken(step: Step) {
    step.External? ==> Token(step.tool)
  }

  lemma TextStarts(text: string)
    ensures Starts(text + LineEnd) == Starts(text)
  {
    LineSeam(text, LineEnd);
    StartsSplit(text, LineEnd);
    NoT(LineEnd);
  }

  lemma LeadStarts(lead: string, text: string)
    requires 'T' !in lead
    ensures Starts(lead + text) == Starts(text)
  {
    NoT(lead);
    HeadSeam(lead, text);
    StartsSplit(lead, text);
  }

  /** The number of matches in a head, a body and a result adds up. */
  lemma ExchangeStarts(head: string, body: string, result: string)
    requires forall p :: 0 <= p < |head| < p + |Marker| ==> head[p] != 'T'
    ensures Starts(Exchange(head, body, result)) == Starts(head) + Starts(body) + Starts(result)
  {
    var end := Observation + (result + LineEnd);
    LeadStarts(Observation, result + LineEnd);
    TextStarts(result);
    LineSeam(body, end);
    StartsSplit(body, end);
    HeadSeam(head, body + end);
    StartsSplit(head, body + end);
  }

  /** Two tokens and one blank cannot hold the marker, which has two blanks. */
  lemma NamesHoldNoMarker(server: string, tool: string)
    requires Token(server) && Token(tool)
    ensures Starts(server + " " + tool) == 0
  {
    var s := server + " " + tool;
    forall p | 0 <= p < |s|
      ensures !(Marker <= s[p..])
    {
      if Marker <= s[p..] {
        MatchSpans(s, p, p + 4);
        MatchSpans(s, p, p + 9);
      }
    }
    NoStarts(s);
  }

  lemma NoT(s: string)
    requires 'T' !in s
    ensures Starts(s) == 0
  {
    forall p | 0 <= p < |s|
      ensures !(Marker <= s[p..])
    {
      if Marker <= s[p..] {
        MatchSpans(s, p, p);
      }
    }
    NoStarts(s);
  }

  /** A head with at most one capital T, at its start, holds the marker only if it begins with it. */
  lemma {:induction false} HeadStarts(head: string)
    requires |head| > 5 && forall p :: 0 < p < |head| ==> head[p] != 'T'
    ensures Starts(head) == if Marker <= head then 1 else 0
  {
    forall p | 0 <= p < |head[1..]|
      ensures head[1..][p] != 'T'
    {
      assert head[1..][p] == head[p + 1];
    }
    NoT(head[1..]);
  }

  lemma ToolStarts(lead: string, head: string, body: string, result: string)
    requires 'T' !in lead && |head| >= |Marker| && forall p :: 0 < p < |head| ==> head[p] != 'T'
    ensures Starts(Exchange(lead + head, body, result)) == (if Marker <= head then 1 else 0) + Starts(body) + Starts(result)
  {
    LeadStarts(lead, head);
    HeadStarts(head);
    ExchangeStarts(lead + head, body, result);
  }

  lemma OtherStarts(head: string, body: string, result: string)
    requires |head| >= |Marker| && head[5] != 'c' && forall p :: 0 < p < |head| ==> head[p] != 'T'
    ensures Starts(Exchange(Assistant + head, body, result)) == Starts(body) + Starts(result)
    ensures 'T' !in result ==> Starts(result) == 0
  {
    ToolStarts(Assistant, head, body, result);
    if 'T' !in result {
      NoT(result);
    }
  }

  lemma CallStarts(step: Step)
    requires step.External? && StepToken(step)
    ensures Starts(Rendered(step)) == 1 + Starts(step.result)
  {
    var (server, tool) := Names(step.tool);
    NamesHoldNoMarker(server, tool);
    ToolStarts(Assistant, Marker, server + " " + tool, step.result);
  }

  lemma StepStarts(step: Step)
    requires StepToken(step)
    ensures Starts(Rendered(step)) == Stray(step) + (if step.External? then 1 else 0)
  {
    match step
    case RunStart(question) =>
      TextStarts(question);
      LeadStarts("Question: ", question + LineEnd);
    case Search(query, results) =>
      OtherStarts("TOOL search: ", query, Join(results));
    case Remember(content) =>
      OtherStarts("TOOL remember: ", content, "stored");
    case External(tool, _, result) =>
      CallStarts(step);
    case HitlRequest(prompt) =>
      OtherStarts("requested approval for: ", prompt, "approved");
    case HitlResolve(_) =>
    case LlmAnswer(_) =>
  }

  predicate Closed(s: string) {
    s == "" || s[|s| - 1] == '\n'
  }

  lemma StepClosed(step: Step)
    ensures Closed(Rendered(step))
  {
  }

  function Total(lines: seq<string>): nat {
    if lines == [] then 0 else Total(lines[..|lines| - 1]) + Starts(lines[|lines| - 1])
  }

  /** The marker count adds up over lines that end where they should. */
  lemma {:induction false} CatStarts(lines: seq<string>)
    requires forall i :: 0 <= i < |lines| ==> Closed(lines[i])
    ensures Closed(Cat(lines)) && Starts(Cat(lines)) == Total(lines)
  {
    if lines != [] {
      var init, last := lines[..|lines| - 1], lines[|lines| - 1];
      CatStarts(init);
      LineSeam(Cat(init), last);
      StartsSplit(Cat(init), last);
    }
  }

  lemma {:induction false} TotalIs(journal: seq<Step>)
    requires forall i :: 0 <= i < |journal| ==> StepToken(journal[i])
    ensures Total(Lines(journal)) == Calls(journal) + Strays(journal)
  {
    if journal != [] {
      var init, last := journal[..|journal| - 1], journal[|journal| - 1];
      TotalIs(init);
      StepStarts(last);
      assert Lines(journal)[..|journal| - 1] == Lines(init);
    }
  }

  /** The counter a driver starts from: one per journaled call, plus every stray marker in free text. */
  lemma {:induction false} RebuiltCount(journal: seq<Step>)
    requires forall i :: 0 <= i < |journal| ==> StepToken(journal[i])
    ensures MatchCount(Rebuilt(journal)) == Calls(journal) + Strays(journal)
  {
    forall i | 0 <= i < |journal|
      ensures Closed(Lines(journal)[i])
    {
      StepClosed(journal[i]);
    }
    CatStarts(Lines(journal));
    TotalIs(journal);
    MatchCountIsStarts(Rebuilt(journal));
  }
}
