/** How the driver reads a model's reply. */
module AgentReply {
  import opened Options
  import opened AgentTranscript

  datatype Reply =
    | DoSearch(query: string)
    | DoRemember(content: string)
    | DoCall(server: string, tool: string, args: string)
    | DoApprove(prompt: string)
    | Answer(text: string)

  /** The characters with the Unicode property White_Space. */
  predicate IsSpace(c: char) {
    || '\U{9}' <= c <= '\U{D}' || c == ' ' || c == '\U{85}' || c == '\U{A0}' || c == '\U{1680}'
    || '\U{2000}' <= c <= '\U{200A}' || c in {'\U{2028}', '\U{2029}', '\U{202F}', '\U{205F}', '\U{3000}'}
  }

  predicate Spaceless(s: string) {
    forall i :: 0 <= i < |s| ==> !IsSpace(s[i])
  }

  predicate Blank(s: string) {
    forall i :: 0 <= i < |s| ==> IsSpace(s[i])
  }

  function TrimStart(s: string): string {
    if s != [] && IsSpace(s[0]) then TrimStart(s[1..]) else s
  }

  function TrimEnd(s: string): string {
    if s != [] && IsSpace(s[|s| - 1]) then TrimEnd(s[..|s| - 1]) else s
  }

  function Trim(s: string): string {
    TrimEnd(TrimStart(s))
  }

  function StripPrefix(s: string, prefix: string): Option<string> {
    if prefix <= s then Some(s[|prefix|..]) else None
  }

  /** The characters up to the next blank. */
  function Word(s: string): (r: string)
    ensures r <= s && Spaceless(r) && (|r| < |s| ==> IsSpace(s[|r|]))
  {
    if s == [] || IsSpace(s[0]) then [] else [s[0]] + Word(s[1..])
  }

  /** The first word of `s`, or "" if there is none, and what follows it. */
  function NextWord(s: string): (r: (string, string))
    ensures Spaceless(r.0)
  {
    var t := TrimStart(s);
    (Word(t), t[|Word(t)|..])
  }

  function ParseCall(rest: string): (r: Reply)
    ensures r.DoCall? && Spaceless(r.server) && Spaceless(r.tool)
  {
    var (head, args) := match SplitOnce(rest, ':') case Some(parts) => parts case None => (rest, "{}");
    var (server, more) := NextWord(head);
    DoCall(server, NextWord(more).0, Trim(args))
  }

  function Parse(reply: string): (r: Reply)
    ensures r.DoCall? ==> Spaceless(r.server) && Spaceless(r.tool)
  {
    var trimmed := Trim(reply);
    var search, remember := StripPrefix(trimmed, "TOOL search:"), StripPrefix(trimmed, "TOOL remember:");
    var call, approve := StripPrefix(trimmed, "TOOL call "), StripPrefix(trimmed, "TOOL approve:");
    if search.Some? then DoSearch(Trim(search.value))
    else if remember.Some? then DoRemember(Trim(remember.value))
    else if call.Some? then ParseCall(call.value)
    else if approve.Some? then DoApprove(Trim(approve.value))
    else Answer(trimmed)
  }

  // ---------- reading back what a well-formed reply says ----------

  lemma {:induction false} TrimStartPast(blank: string, s: string)
    requires Blank(blank) && (s == "" || !IsSpace(s[0]))
    ensures TrimStart(blank + s) == s
  {
    if blank == "" {
      assert blank + s == s;
    } else {
      assert (blank + s)[1..] == blank[1..] + s;
      TrimStartPast(blank[1..], s);
    }
  }

  lemma {:induction false} TrimEndPast(s: string, blank: string)
    requires Blank(blank) && (s == "" || !IsSpace(s[|s| - 1]))
    ensures TrimEnd(s + blank) == s
  {
    if blank == "" {
      assert s + blank == s;
    } else {
      var n := |blank| - 1;
      assert (s + blank)[..|s| + n] == s + blank[..n];
      TrimEndPast(s, blank[..n]);
    }
  }

  /** Trimming undoes surrounding blanks around a text that neither starts nor ends with one. */
  lemma TrimAround(left: string, s: string, right: string)
    requires Blank(left) && Blank(right) && s != "" && !IsSpace(s[0]) && !IsSpace(s[|s| - 1])
    ensures Trim(left + s + right) == s
  {
    assert left + s + right == left + (s + right);
    assert (s + right)[0] == s[0];
    TrimStartPast(left, s + right);
    TrimEndPast(s, right);
  }

  lemma {:induction false} WordUpTo(w: string, rest: string)
    requires Spaceless(w) && (rest == "" || IsSpace(rest[0]))
    ensures Word(w + rest) == w
  {
    if w == "" {
      assert w + rest == rest;
    } else {
      assert (w + rest)[1..] == w[1..] + rest;
      WordUpTo(w[1..], rest);
      assert [w[0]] + w[1..] == w;
    }
  }

  lemma NextWordIs(blank: string, w: string, rest: string)
    requires Blank(blank) && Spaceless(w) && w != "" && (rest == "" || IsSpace(rest[0]))
    ensures NextWord(blank + (w + rest)) == (w, rest)
  {
    assert (w + rest)[0] == w[0];
    TrimStartPast(blank, w + rest);
    WordUpTo(w, rest);
    assert (w + rest)[|w|..] == rest;
  }

  /** `<server> <tool>: <args>` is read back as its three parts; the arguments lose surrounding blanks only. */
  lemma ParseCallReads(server: string, tool: string, args: string)
    requires server != "" && tool != "" && Spaceless(server) && Spaceless(tool) && ':' !in server && ':' !in tool
    ensures ParseCall(server + " " + tool + ":" + args) == DoCall(server, tool, Trim(args))
  {
    var head := server + " " + tool;
    SplitOnceAt(head, ':', args);
    assert head == "" + (server + (" " + tool));
    NextWordIs("", server, " " + tool);
    assert " " + tool == " " + (tool + "");
    NextWordIs(" ", tool, "");
  }

  lemma PrefixAt(s: string, prefix: string, i: nat)
    requires prefix <= s && i < |prefix|
    ensures i < |s| && s[i] == prefix[i]
  {
  }

  /** At most one of the four commands opens a reply: they differ in their sixth character. */
  lemma CommandsDiffer(s: string)
    ensures "TOOL search:" <= s ==> |s| > 5 && s[5] == 's'
    ensures "TOOL remember:" <= s ==> |s| > 5 && s[5] == 'r'
    ensures "TOOL call " <= s ==> |s| > 5 && s[5] == 'c'
    ensures "TOOL approve:" <= s ==> |s| > 5 && s[5] == 'a'
  {
    if "TOOL search:" <= s { PrefixAt(s, "TOOL search:", 5); }
    if "TOOL remember:" <= s { PrefixAt(s, "TOOL remember:", 5); }
    if "TOOL call " <= s { PrefixAt(s, "TOOL call ", 5); }
    if "TOOL approve:" <= s { PrefixAt(s, "TOOL approve:", 5); }
  }

  /** The command that opens a reply decides how it is read, whatever blanks surround it; without one it is the answer. */
  lemma ReplyReads(left: string, s: string, right: string)
    requires Blank(left) && Blank(right) && s != "" && !IsSpace(s[0]) && !IsSpace(s[|s| - 1])
    ensures var r := Parse(left + s + right);
            && ("TOOL search:" <= s <==> r.DoSearch?) && ("TOOL remember:" <= s <==> r.DoRemember?)
            && ("TOOL call " <= s <==> r.DoCall?) && ("TOOL approve:" <= s <==> r.DoApprove?)
            && (r.Answer? ==> r.text == s)
  {
    TrimAround(left, s, right);
    CommandsDiffer(s);
  }

  /** A text with its padding: neither starts nor ends in a blank, and an empty one has none in front. */
  predicate Padded(pad: string, q: string) {
    Blank(pad) && if q == "" then pad == "" else !IsSpace(q[0]) && !IsSpace(q[|q| - 1])
  }

  lemma TrimPadded(pad: string, q: string)
    requires Padded(pad, q)
    ensures Trim(pad + q) == q
  {
    if q == "" {
      assert pad + q == "";
    } else {
      TrimAround(pad, q, "");
      assert pad + q + "" == pad + q;
    }
  }

  lemma StripIs(prefix: string, rest: string)
    ensures StripPrefix(prefix + rest, prefix) == Some(rest)
  {
    assert (prefix + rest)[|prefix|..] == rest;
  }

  /** A reply that starts with a word and does not end in a blank is trimmed to itself. */
  lemma CommandTrims(left: string, prefix: string, rest: string, right: string)
    requires Blank(left) && Blank(right) && prefix != "" && !IsSpace(prefix[0])
    requires if rest == "" then !IsSpace(prefix[|prefix| - 1]) else !IsSpace(rest[|rest| - 1])
    ensures Trim(left + (prefix + rest) + right) == prefix + rest
  {
    var s := prefix + rest;
    assert s[0] == prefix[0];
    assert s[|s| - 1] == if rest == "" then prefix[|prefix| - 1] else rest[|rest| - 1];
    TrimAround(left, s, right);
  }

  /** `TOOL search:` is read as a search for what follows, blanks around it dropped. */
  lemma SearchReads(left: string, pad: string, q: string, right: string)
    requires Blank(left) && Blank(right) && Padded(pad, q)
    ensures Parse(left + ("TOOL search:" + (pad + q)) + right) == DoSearch(q)
  {
    CommandTrims(left, "TOOL search:", pad + q, right);
    StripIs("TOOL search:", pad + q);
    TrimPadded(pad, q);
  }

  lemma RememberReads(left: string, pad: string, q: string, right: string)
    requires Blank(left) && Blank(right) && Padded(pad, q)
    ensures Parse(left + ("TOOL remember:" + (pad + q)) + right) == DoRemember(q)
  {
    CommandTrims(left, "TOOL remember:", pad + q, right);
    CommandsDiffer("TOOL remember:" + (pad + q));
    StripIs("TOOL remember:", pad + q);
    TrimPadded(pad, q);
  }

  lemma ApproveReads(left: string, pad: string, q: string, right: string)
    requires Blank(left) && Blank(right) && Padded(pad, q)
    ensures Parse(left + ("TOOL approve:" + (pad + q)) + right) == DoApprove(q)
  {
    CommandTrims(left, "TOOL approve:", pad + q, right);
    CommandsDiffer("TOOL approve:" + (pad + q));
    StripIs("TOOL approve:", pad + q);
    TrimPadded(pad, q);
  }

  /** A reply that opens with the call command is read from what follows the command. */
  lemma CallIsParsed(left: string, rest: string, right: string)
    requires Blank(left) && Blank(right) && rest != "" && !IsSpace(rest[|rest| - 1])
    ensures Parse(left + ("TOOL call " + rest) + right) == ParseCall(rest)
  {
    CommandTrims(left, "TOOL call ", rest, right);
    CommandsDiffer("TOOL call " + rest);
    StripIs("TOOL call ", rest);
  }

  predicate Name(s: string) {
    s != "" && Spaceless(s) && ':' !in s
  }

  /** `TOOL call <server> <tool>: <args>` is read as a call of that tool of that server with those arguments. */
  lemma CallReads(left: string, server: string, tool: string, pad: string, args: string, right: string)
    requires Blank(left) && Blank(right) && Name(server) && Name(tool) && Padded(pad, args)
    ensures Parse(left + ("TOOL call " + (server + " " + tool + ":" + (pad + args))) + right) == DoCall(server, tool, args)
  {
    var rest := server + " " + tool + ":" + (pad + args);
    assert rest[|rest| - 1] == if args == "" then ':' else args[|args| - 1];
    CallIsParsed(left, rest, right);
    ParseCallReads(server, tool, pad + args);
    TrimPadded(pad, args);
  }

  lemma TwoWords(server: string, tool: string)
    requires Name(server) && Name(tool)
    ensures NextWord(server + " " + tool) == (server, " " + tool) && NextWord(" " + tool).0 == tool
  {
    assert server + " " + tool == "" + (server + (" " + tool));
    NextWordIs("", server, " " + tool);
    assert " " + tool == " " + (tool + "");
    NextWordIs(" ", tool, "");
  }

  lemma EmptyObject()
    ensures Trim("{}") == "{}"
  {
    TrimPadded("", "{}");
    assert "" + "{}" == "{}";
  }

  lemma BareParse(server: string, tool: string)
    requires Name(server) && Name(tool)
    ensures ParseCall(server + " " + tool) == DoCall(server, tool, "{}")
  {
    assert ':' !in server + " " + tool;
    TwoWords(server, tool);
    EmptyObject();
  }

  /** Without a colon the arguments are an empty object. */
  lemma BareCallReads(left: string, server: string, tool: string, right: string)
    requires Blank(left) && Blank(right) && Name(server) && Name(tool)
    ensures Parse(left + ("TOOL call " + (server + " " + tool)) + right) == DoCall(server, tool, "{}")
  {
    var rest := server + " " + tool;
    assert rest[|rest| - 1] == tool[|tool| - 1];
    CallIsParsed(left, rest, right);
    BareParse(server, tool);
  }
}
