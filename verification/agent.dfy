/** The assistant's conversation loop (`AIAgent` in `src/services/ai_agent.py`): build the
    prompt, ask the language model with the two tools offered, run the tools it calls
    against the knowledge base, and ask once more for the final answer. The language
    model, the JSON argument parser, the embedding and search calls and the float
    formatting are parameters; a call that raises is one that returns `None`. */
module Agent {
  import opened Wrappers
  import opened Strings
  import opened Slices
  import opened Config
  import opened Knowledge
  import opened Coordinates

  const SearchToolName := "search_knowledge"
  const LocationToolName := "send_location"
  const QueryKey := "query"
  const PlaceKey := "place_name"

  /** How many history entries are sent, and how much of each. */
  const HistoryWindow := 3
  const HistoryContentLength := 300

  /** The reply when anything in the loop raises. */
  const Apology := "یه مشکلی پیش اومد، دوباره امتحان کن."
  /** The reply when the model answers with no text. */
  const Fallback := "متوجه نشدم، دوباره بگو."
  /** The tool output when the knowledge base finds nothing. */
  const NoResults := "اطلاعاتی در پایگاه داده پیدا نشد."
  /** The tool output when no coordinates are found for a place. */
  const NoCoordinates := "مختصات این مکان موجود نیست"
  /** What separates search results in the tool output. */
  const ResultSeparator := "\n---\n"

  /** One entry of the history passed in; an absent key is `None`. */
  datatype HistoryEntry = HistoryEntry(role: Option<string>, content: Option<string>)

  /** A tool call requested by the model: its id, the function name and the JSON text of
      its arguments. */
  datatype ToolCall = ToolCall(id: string, name: string, arguments: string)

  /** The model's message: its text (absent or empty when it only calls tools) and the
      tool calls, empty when there are none. */
  datatype Reply = Reply(content: Option<string>, toolCalls: seq<ToolCall>)

  /** A message of the conversation sent to the model. */
  datatype Message =
    | Text(role: string, content: string)
    | Calls(reply: Reply)
    | ToolOutput(toolCallId: string, content: string)

  /** One request to the model: the messages, and whether the tools were offered. */
  datatype Request = Request(messages: seq<Message>, withTools: bool)

  /** What `json.loads` makes of a tool call's arguments: it raises on text that is not
      JSON; other JSON, such as a list or a number, parses but has no keys to read. */
  datatype ParsedArgs = NotJson | OtherJson | Fields(fields: map<string, string>)

  /** Whether `tool_args[key]` can be read: the arguments are an object holding `key`. */
  predicate HasKey(parsed: ParsedArgs, key: string) {
    parsed.Fields? && key in parsed.fields
  }

  /** The outside world of one chat. `llm` answers a request (`None` when the call
      raises), `parseArgs` is `json.loads` of the arguments, `score` is the `:.2f`
      rendering of a similarity and `dumps` is `json.dumps` of a location. */
  datatype Env = Env(
    systemPrompt: string,
    llm: Request -> Option<Reply>,
    parseArgs: string -> ParsedArgs,
    embed: Embedder,
    rpc: MatchRpc,
    score: real -> string,
    dumps: Location -> string)

  // ---------------------------------------------------------------------------
  // The prompt
  // ---------------------------------------------------------------------------

  /** A history entry as sent: the role defaults to "user", the content to empty and is
      cut to 300 characters. */
  function HistoryMessage(entry: HistoryEntry): Message {
    Text(entry.role.GetOr("user"), Take(entry.content.GetOr(""), HistoryContentLength))
  }

  /** The messages of the first request: the system prompt, the last three history
      entries, the user's message. An absent history is the empty one. */
  function BuildPrompt(systemPrompt: string, history: seq<HistoryEntry>, userMessage: string): (r: seq<Message>)
    ensures |r| == 2 + (if |history| < HistoryWindow then |history| else HistoryWindow)
    ensures r[0] == Text("system", systemPrompt) && r[|r| - 1] == Text("user", userMessage)
    ensures forall k | 1 <= k < |r| - 1 ::
              var entry := history[|history| - (|r| - 2) + (k - 1)];
              && r[k].Text?
              && r[k].role == entry.role.GetOr("user")
              && |r[k].content| <= HistoryContentLength
              && |r[k].content| <= |entry.content.GetOr("")|
              && r[k].content == entry.content.GetOr("")[..|r[k].content|]
              && (|r[k].content| == HistoryContentLength || r[k].content == entry.content.GetOr(""))
  {
    var recent := FromEnd(history, HistoryWindow);
    [Text("system", systemPrompt)]
      + seq(|recent|, k requires 0 <= k < |recent| => HistoryMessage(recent[k]))
      + [Text("user", userMessage)]
  }

  /** Only the last three entries of the history matter: older ones are never sent. */
  lemma OlderHistoryIgnored(systemPrompt: string, older: seq<HistoryEntry>, recent: seq<HistoryEntry>, userMessage: string)
    requires |recent| >= HistoryWindow
    ensures BuildPrompt(systemPrompt, older + recent, userMessage) == BuildPrompt(systemPrompt, recent, userMessage)
  {
    var all := older + recent;
    assert FromEnd(all, HistoryWindow) == FromEnd(recent, HistoryWindow);
  }

  // ---------------------------------------------------------------------------
  // _search_knowledge and _get_location
  // ---------------------------------------------------------------------------

  /** The knowledge search both tools make: at most five results above the service's
      default threshold. */
  function ToolSearch(query: string, env: Env): seq<SearchResult> {
    SearchKnowledgeBase(query, DefaultLimit, ServiceThreshold, env.embed, env.rpc).results
  }

  /** One result as the model sees it: its score, then its content. */
  function ResultBlock(result: SearchResult, score: real -> string): string {
    "[امتیاز: " + score(result.similarity) + "]\n" + result.content
  }

  /** A joined list starts with its first part. */
  lemma JoinStartsWithFirst(parts: seq<string>, sep: string)
    requires parts != []
    ensures |Join(parts, sep)| >= |parts[0]| && Join(parts, sep)[..|parts[0]|] == parts[0]
  {
  }

  /** `_search_knowledge`: the fixed sentinel when nothing is found, otherwise the result
      blocks in order, separated by dashes. */
  function SearchTool(query: string, env: Env): (r: string)
    ensures r == NoResults <==> ToolSearch(query, env) == []
  {
    var results := ToolSearch(query, env);
    if results == [] then NoResults
    else
      var blocks := seq(|results|, k requires 0 <= k < |results| => ResultBlock(results[k], env.score));
      JoinStartsWithFirst(blocks, ResultSeparator);
      assert Join(blocks, ResultSeparator)[0] == '[' != NoResults[0];
      Join(blocks, ResultSeparator)
  }

  /** The search tool's output is the sentinel exactly when the search found nothing;
      otherwise it is the blocks of all results, the first result's block leading. */
  lemma SearchToolSpec(query: string, env: Env)
    ensures var r := SearchTool(query, env);
            var results := ToolSearch(query, env);
            && (r == NoResults <==> results == [])
            && (results != [] ==>
                  var blocks := seq(|results|, k requires 0 <= k < |results| => ResultBlock(results[k], env.score));
                  r == Join(blocks, ResultSeparator) && r[..|blocks[0]|] == ResultBlock(results[0], env.score))
  {
    var results := ToolSearch(query, env);
    if results != [] {
      var blocks := seq(|results|, k requires 0 <= k < |results| => ResultBlock(results[k], env.score));
      JoinStartsWithFirst(blocks, ResultSeparator);
    }
  }

  /** The first present value of `f` over `xs`, in order. */
  function FirstSome<T, U>(xs: seq<T>, f: T -> Option<U>): (r: Option<U>)
    ensures r.Some? <==> exists k | 0 <= k < |xs| :: f(xs[k]).Some?
    ensures r.Some? ==> exists k | 0 <= k < |xs| :: r == f(xs[k]) && forall j | 0 <= j < k :: f(xs[j]).None?
    decreases |xs|
  {
    if xs == [] then None
    else if f(xs[0]).Some? then f(xs[0])
    else
      var rest := FirstSome(xs[1..], f);
      assert forall k | 1 <= k < |xs| :: xs[k] == xs[1..][k - 1];
      rest
  }

  /** The contents of the results, in order. */
  function Contents(results: seq<SearchResult>): (r: seq<string>)
    ensures |r| == |results| && forall k | 0 <= k < |r| :: r[k] == results[k].content
  {
    seq(|results|, k requires 0 <= k < |results| => results[k].content)
  }

  /** The first location found in the results' contents, in result order. */
  function FirstLocation(results: seq<SearchResult>): Option<Location> {
    FirstSome(Contents(results), ExtractCoordinates)
  }

  /** `_get_location`: search for the place, then take the first result with usable
      coordinates. */
  function GetLocation(placeName: string, env: Env): (r: Option<Location>)
    ensures r.Some? ==> InBox(r.value.latitude, r.value.longitude)
  {
    var results := ToolSearch(placeName, env);
    FirstSomeOfContents(results, ExtractCoordinates);
    FirstLocation(results)
  }

  /** The first present value of `f` over the results' contents, stated over the results. */
  lemma FirstSomeOfContents<U>(results: seq<SearchResult>, f: string -> Option<U>)
    ensures var r := FirstSome(Contents(results), f);
            && (r.Some? <==> exists k | 0 <= k < |results| :: f(results[k].content).Some?)
            && (r.Some? ==> exists k | 0 <= k < |results| ::
                  && r == f(results[k].content)
                  && forall j | 0 <= j < k :: f(results[j].content).None?)
  {
    var xs := Contents(results);
    var r := FirstSome(xs, f);
    if r.Some? {
      var i :| 0 <= i < |xs| && r == f(xs[i]) && forall j | 0 <= j < i :: f(xs[j]).None?;
      assert xs[i] == results[i].content;
    }
  }

  /** The location found lies in the box, and comes from the first result whose content
      yields one; there is none exactly when no result's content yields one. */
  lemma GetLocationSpec(placeName: string, env: Env)
    ensures var r := GetLocation(placeName, env);
            var results := ToolSearch(placeName, env);
            && (r.Some? ==> InBox(r.value.latitude, r.value.longitude))
            && (r.Some? <==> exists k | 0 <= k < |results| :: ExtractCoordinates(results[k].content).Some?)
            && (r.Some? ==> exists k | 0 <= k < |results| ::
                  && r == ExtractCoordinates(results[k].content)
                  && forall j | 0 <= j < k :: ExtractCoordinates(results[j].content).None?)
  {
    var results := ToolSearch(placeName, env);
    FirstSomeOfContents(results, ExtractCoordinates);
  }

  /** A result holding a record of coordinate lines gives its location, unless an earlier
      result already does. */
  lemma FirstLocationOfRecord(results: seq<SearchResult>, k: nat, latitude: Number, longitude: Number)
    requires k < |results| && WellFormedNumber(latitude) && WellFormedNumber(longitude)
    requires results[k].content == Record(latitude, longitude) && InBox(Value(latitude), Value(longitude))
    requires forall j | 0 <= j < k :: ExtractCoordinates(results[j].content).None?
    ensures FirstLocation(results) == Some(Location(Value(latitude), Value(longitude)))
  {
    RecordCoordinates(latitude, longitude);
    FirstSomeAt(Contents(results), ExtractCoordinates, k);
  }

  /** The first present value is the one at the first position that has one. */
  lemma FirstSomeAt<T, U>(xs: seq<T>, f: T -> Option<U>, k: nat)
    requires k < |xs| && f(xs[k]).Some?
    requires forall j | 0 <= j < k :: f(xs[j]).None?
    ensures FirstSome(xs, f) == f(xs[k])
  {
    assert FirstSome(xs, f).Some?;
    var i :| 0 <= i < |xs| && FirstSome(xs, f) == f(xs[i]) && forall j | 0 <= j < i :: f(xs[j]).None?;

  }

  // ---------------------------------------------------------------------------
  // The tool calls
  // ---------------------------------------------------------------------------

  /** What one tool call does: nothing for an unknown tool, a search output, or a looked-up
      location (possibly none) and its output. */
  datatype ToolStep = Skipped | Searched(output: string) | Located(location: Option<Location>, output: string)

  /** Whether a tool name is one of the two tools offered. */
  predicate KnownTool(name: string) {
    name == SearchToolName || name == LocationToolName
  }

  /** One tool call: its arguments are parsed first, whatever the tool; text that is not
      JSON raises, and so does a known tool whose key cannot be read; `None` is a raise.
      A search output is the search tool's answer to the call's query. */
  function RunTool(call: ToolCall, env: Env): (r: Option<ToolStep>)
    ensures env.parseArgs(call.arguments).NotJson? ==> r.None?
    ensures r.Some? ==> (r.value.Skipped? <==> !KnownTool(call.name))
    ensures r.Some? && r.value.Searched? ==>
              && call.name == SearchToolName && HasKey(env.parseArgs(call.arguments), QueryKey)
              && r.value.output == SearchTool(env.parseArgs(call.arguments).fields[QueryKey], env)
    ensures r.Some? && r.value.Located? ==> call.name == LocationToolName
  {
    var parsed := env.parseArgs(call.arguments);
    if parsed.NotJson? then None
    else if call.name == SearchToolName then
      if HasKey(parsed, QueryKey) then Some(Searched(SearchTool(parsed.fields[QueryKey], env))) else None
    else if call.name == LocationToolName then
      if HasKey(parsed, PlaceKey) then
        var location := GetLocation(parsed.fields[PlaceKey], env);
        if location.Some? then Some(Located(location, env.dumps(location.value)))
        else Some(Located(None, NoCoordinates))
      else None
    else Some(Skipped)
  }

  /** A call raises exactly when its arguments are not JSON or its tool's key cannot be
      read; an unknown tool is skipped whatever JSON its arguments hold; a search call
      reports the search tool's answer to its query; a location call
      reports the lookup's location and its JSON, or the fixed sentence when there is
      none. */
  lemma RunToolSpec(call: ToolCall, env: Env)
    ensures var parsed := env.parseArgs(call.arguments);
            RunTool(call, env).None? <==>
              || parsed.NotJson?
              || (call.name == SearchToolName && !HasKey(parsed, QueryKey))
              || (call.name == LocationToolName && !HasKey(parsed, PlaceKey))
    ensures RunTool(call, env) == Some(Skipped) <==> !KnownTool(call.name) && !env.parseArgs(call.arguments).NotJson?
    ensures RunTool(call, env).Some? && RunTool(call, env).value.Searched? ==>
              && call.name == SearchToolName
              && HasKey(env.parseArgs(call.arguments), QueryKey)
              && RunTool(call, env).value.output == SearchTool(env.parseArgs(call.arguments).fields[QueryKey], env)
    ensures RunTool(call, env).Some? && RunTool(call, env).value.Located? ==>
              && call.name == LocationToolName
              && HasKey(env.parseArgs(call.arguments), PlaceKey)
              && RunTool(call, env).value.location == GetLocation(env.parseArgs(call.arguments).fields[PlaceKey], env)
              && (RunTool(call, env).value.location.None? ==> RunTool(call, env).value.output == NoCoordinates)
              && (RunTool(call, env).value.location.Some? ==> RunTool(call, env).value.output == env.dumps(RunTool(call, env).value.location.value))
  {
  }

  /** An unknown tool whose arguments are JSON but not an object, such as a list, is
      skipped rather than raising. */
  lemma UnknownToolOtherJsonSkipped(call: ToolCall, env: Env)
    requires !KnownTool(call.name) && env.parseArgs(call.arguments) == OtherJson
    ensures RunTool(call, env) == Some(Skipped)
  {
  }

  /** The tool outputs gathered so far and the location to send. */
  datatype ToolRun = ToolRun(outputs: seq<Message>, location: Option<Location>)

  /** Record one step: a known tool adds its output; a location lookup replaces the
      location, even with none. */
  function AddStep(done: ToolRun, id: string, step: ToolStep): ToolRun {
    match step
    case Skipped => done
    case Searched(output) => ToolRun(done.outputs + [ToolOutput(id, output)], done.location)
    case Located(location, output) => ToolRun(done.outputs + [ToolOutput(id, output)], location)
  }

  /** How a tool call is carried out: a step, or `None` when it raises. */
  type Runner = ToolCall -> Option<ToolStep>

  /** The tools of `env`. */
  function Tools(env: Env): Runner {
    call => RunTool(call, env)
  }

  /** The messages one step contributes: its output, unless the tool was unknown. */
  function StepOutputs(id: string, step: ToolStep): seq<Message> {
    if step.Skipped? then [] else [ToolOutput(id, step.output)]
  }

  /** The outputs of the calls, one per call that produces one, in call order; a call that
      raises contributes nothing. */
  function OutputsOf(calls: seq<ToolCall>, run: Runner): seq<Message>
    decreases |calls|
  {
    if calls == [] then []
    else
      (match run(calls[0]) case Some(step) => StepOutputs(calls[0].id, step) case None => [])
      + OutputsOf(calls[1..], run)
  }

  /** The loop over the tool calls, in order; the first call that raises ends it. When
      none raises, the outputs gathered are those of all the calls, after the ones already
      there. */
  function RunTools(calls: seq<ToolCall>, run: Runner, done: ToolRun): (r: Option<ToolRun>)
    ensures r.Some? ==> r.value.outputs == done.outputs + OutputsOf(calls, run)
    decreases |calls|
  {
    if calls == [] then Some(done)
    else
      match run(calls[0])
      case None => None
      case Some(step) =>
        var next := AddStep(done, calls[0].id, step);
        assert next.outputs == done.outputs + StepOutputs(calls[0].id, step);
        RunTools(calls[1..], run, next)
  }

  /** How many of the calls produce an output. */
  function Produced(calls: seq<ToolCall>, run: Runner): nat
    decreases |calls|
  {
    if calls == [] then 0
    else (if run(calls[0]).Some? && !run(calls[0]).value.Skipped? then 1 else 0) + Produced(calls[1..], run)
  }

  /** A call producing an output finds it at the position counted by the calls before
      it: the outputs are the producing calls' outputs, one each, in order. */
  lemma {:induction false} OutputsOfAt(calls: seq<ToolCall>, run: Runner, k: nat)
    requires k < |calls| && run(calls[k]).Some? && !run(calls[k]).value.Skipped?
    ensures Produced(calls[..k], run) < |OutputsOf(calls, run)|
    ensures OutputsOf(calls, run)[Produced(calls[..k], run)] == ToolOutput(calls[k].id, run(calls[k]).value.output)
    decreases k
  {
    OutputsOfLength(calls, run);
    if k == 0 {
      assert calls[..0] == [];
    } else {
      var head := match run(calls[0]) case Some(step) => StepOutputs(calls[0].id, step) case None => [];
      assert calls[..k][1..] == calls[1..][..k - 1];
      assert calls[..k][0] == calls[0];
      assert calls[1..][k - 1] == calls[k];
      OutputsOfAt(calls[1..], run, k - 1);
      assert Produced(calls[..k], run) == |head| + Produced(calls[1..][..k - 1], run);
    }
  }

  /** There is one output per call that produces one. */
  lemma {:induction false} OutputsOfLength(calls: seq<ToolCall>, run: Runner)
    ensures |OutputsOf(calls, run)| == Produced(calls, run)
    decreases |calls|
  {
    if calls != [] {
      OutputsOfLength(calls[1..], run);
    }
  }

  /** How many of the calls name a known tool. */
  function KnownCount(calls: seq<ToolCall>): nat
    decreases |calls|
  {
    if calls == [] then 0 else (if KnownTool(calls[0].name) then 1 else 0) + KnownCount(calls[1..])
  }

  /** The location lookup of the last location call, read from the end; `None` when no
      call looks one up. */
  function LastLookup(calls: seq<ToolCall>, run: Runner): Option<Option<Location>>
    decreases |calls|
  {
    if calls == [] then None
    else
      match run(calls[|calls| - 1])
      case Some(Located(location, _)) => Some(location)
      case _ => LastLookup(calls[..|calls| - 1], run)
  }

  /** The last lookup of a list is that of its tail, or the head's when the tail has
      none. */
  lemma {:induction false} LastLookupCons(calls: seq<ToolCall>, run: Runner)
    requires calls != []
    ensures LastLookup(calls, run) ==
              match LastLookup(calls[1..], run)
              case Some(location) => Some(location)
              case None =>
                match run(calls[0])
                case Some(Located(location, _)) => Some(location)
                case _ => None
    decreases |calls|
  {
    if |calls| > 1 {
      var front := calls[..|calls| - 1];
      assert front[1..] == calls[1..][..|calls[1..]| - 1];
      assert calls[1..][|calls[1..]| - 1] == calls[|calls| - 1];
      assert front[0] == calls[0];
      LastLookupCons(front, run);
    } else {
      assert calls[..0] == [];
    }
  }

  /** The loop fails exactly when one of the calls raises; otherwise it adds one output per
      call that produces one, in order, and the location is that of the last lookup — a
      later lookup that finds nothing discards an earlier find. */
  lemma {:induction false} RunToolsSpec(calls: seq<ToolCall>, run: Runner, done: ToolRun)
    ensures RunTools(calls, run, done).None? <==> exists k | 0 <= k < |calls| :: run(calls[k]).None?
    ensures RunTools(calls, run, done).Some? ==>
              var result := RunTools(calls, run, done).value;
              && result.outputs == done.outputs + OutputsOf(calls, run)
              && |result.outputs| == |done.outputs| + Produced(calls, run)
              && result.location == LastLookup(calls, run).GetOr(done.location)
    decreases |calls|
  {
    if calls != [] {
      LastLookupCons(calls, run);
      assert forall k | 1 <= k < |calls| :: calls[k] == calls[1..][k - 1];
      match run(calls[0])
      case None =>
      case Some(step) =>
        var next := AddStep(done, calls[0].id, step);
        RunToolsSpec(calls[1..], run, next);
        OutputsOfLength(calls, run);
    }
  }

  /** When no call raises, the calls producing an output are those naming a known tool. */
  lemma {:induction false} ProducedKnown(calls: seq<ToolCall>, env: Env)
    requires forall k | 0 <= k < |calls| :: Tools(env)(calls[k]).Some?
    ensures Produced(calls, Tools(env)) == KnownCount(calls)
    decreases |calls|
  {
    if calls != [] {
      RunToolSpec(calls[0], env);
      assert forall k | 1 <= k < |calls| :: calls[k] == calls[1..][k - 1];
      ProducedKnown(calls[1..], env);
    }
  }

  // ---------------------------------------------------------------------------
  // chat
  // ---------------------------------------------------------------------------

  /** The answer to the user, the location to send, and the requests made to the model. */
  datatype ChatResult = ChatResult(text: string, location: Option<Location>, requests: seq<Request>)

  /** `content or "..."`: the model's text, or the fallback when it is absent or empty. */
  function AnswerText(content: Option<string>): (r: string)
    ensures r != ""
    ensures Truthy(content) ==> r == content.value
  {
    if Truthy(content) then content.value else Fallback
  }

  /** `chat` once the prompt is built: one request with the tools offered; if the model
      calls tools, run them and make a second request without tools, carrying the
      model's message and the outputs. Anything that raises gives the apology and no
      location. */
  function Respond(prompt: seq<Message>, env: Env): (r: ChatResult)
    ensures r.text != ""
    ensures 1 <= |r.requests| <= 2
    ensures r.requests[0] == Request(prompt, true)
    ensures env.llm(Request(prompt, true)).None? ==> r == ChatResult(Apology, None, [Request(prompt, true)])
    ensures |r.requests| == 2 ==> !r.requests[1].withTools
    ensures r.location.Some? ==> |r.requests| == 2 && InBox(r.location.value.latitude, r.location.value.longitude)
  {
    var first := Request(prompt, true);
    match env.llm(first)
    case None => ChatResult(Apology, None, [first])
    case Some(reply) =>
      if reply.toolCalls == [] then ChatResult(AnswerText(reply.content), None, [first])
      else
        match RunTools(reply.toolCalls, Tools(env), ToolRun([], None))
        case None => ChatResult(Apology, None, [first])
        case Some(run) =>
          RunToolsLocation(reply.toolCalls, env);
          var second := Request(first.messages + [Calls(reply)] + run.outputs, false);
          match env.llm(second)
          case None => ChatResult(Apology, None, [first, second])
          case Some(final) => ChatResult(AnswerText(final.content), run.location, [first, second])
  }

  /** `chat`: the user's message after the system prompt and the recent history. */
  function Chat(userMessage: string, history: seq<HistoryEntry>, env: Env): (r: ChatResult)
    ensures r.text != "" && 1 <= |r.requests| <= 2
    ensures var messages := r.requests[0].messages;
            && r.requests[0].withTools && |messages| >= 2
            && messages[0] == Text("system", env.systemPrompt) && messages[|messages| - 1] == Text("user", userMessage)
  {
    Respond(BuildPrompt(env.systemPrompt, history, userMessage), env)
  }

  /** Without history the first request holds only the system prompt and the user's
      message. */
  lemma ChatWithoutHistory(userMessage: string, env: Env)
    ensures Chat(userMessage, [], env).requests[0].messages ==
              [Text("system", env.systemPrompt), Text("user", userMessage)]
  {
    var prompt := BuildPrompt(env.systemPrompt, [], userMessage);
    assert prompt == [Text("system", env.systemPrompt), Text("user", userMessage)];
  }

  /** A location produced by the tool loop lies in the box. */
  lemma RunToolsLocation(calls: seq<ToolCall>, env: Env)
    ensures RunTools(calls, Tools(env), ToolRun([], None)).Some? ==>
              var location := RunTools(calls, Tools(env), ToolRun([], None)).value.location;
              location.Some? ==> InBox(location.value.latitude, location.value.longitude)
  {
    RunToolsSpec(calls, Tools(env), ToolRun([], None));
    LookupInBox(calls, env);
  }

  /** Every lookup's location lies in the box. */
  lemma {:induction false} LookupInBox(calls: seq<ToolCall>, env: Env)
    ensures LastLookup(calls, Tools(env)).Some? && LastLookup(calls, Tools(env)).value.Some? ==>
              var location := LastLookup(calls, Tools(env)).value.value;
              InBox(location.latitude, location.longitude)
    decreases |calls|
  {
    if calls != [] {
      var last := calls[|calls| - 1];
      RunToolSpec(last, env);
      if HasKey(env.parseArgs(last.arguments), PlaceKey) {
        GetLocationSpec(env.parseArgs(last.arguments).fields[PlaceKey], env);
      }
      match RunTool(last, env)
      case Some(Located(location, _)) =>
      case _ => LookupInBox(calls[..|calls| - 1], env);
    }
  }

  /** A second request is made exactly when the model asked for tools and none of them
      raised. */
  lemma RespondSecondRequest(prompt: seq<Message>, env: Env)
    ensures var r := Respond(prompt, env);
            var reply := env.llm(Request(prompt, true));
            |r.requests| == 2 <==>
              && reply.Some? && reply.value.toolCalls != []
              && forall k | 0 <= k < |reply.value.toolCalls| :: RunTool(reply.value.toolCalls[k], env).Some?
  {
    var reply := env.llm(Request(prompt, true));
    if reply.Some? && reply.value.toolCalls != [] {
      var calls := reply.value.toolCalls;
      assert forall k | 0 <= k < |calls| :: Tools(env)(calls[k]) == RunTool(calls[k], env);
      RunToolsSpec(calls, Tools(env), ToolRun([], None));
    }
  }

  /** The second request carries the first request's messages, the model's message and one
      output per known tool call. */
  lemma RespondSecondMessages(prompt: seq<Message>, env: Env)
    ensures var r := Respond(prompt, env);
            var reply := env.llm(Request(prompt, true));
            |r.requests| == 2 ==>
              var messages := r.requests[1].messages;
              && reply.Some?
              && |messages| == |prompt| + 1 + KnownCount(reply.value.toolCalls)
              && messages[..|prompt|] == prompt
              && messages[|prompt|] == Calls(reply.value)
  {
    var reply := env.llm(Request(prompt, true));
    if reply.Some? && reply.value.toolCalls != [] {
      var calls := reply.value.toolCalls;
      RunToolsSpec(calls, Tools(env), ToolRun([], None));
      if RunTools(calls, Tools(env), ToolRun([], None)).Some? {
        ProducedKnown(calls, env);
        var outputs := RunTools(calls, Tools(env), ToolRun([], None)).value.outputs;
        var messages := prompt + [Calls(reply.value)] + outputs;
        assert messages[..|prompt|] == prompt;
      }
    }
  }

  /** The second request is exactly the first request's messages, the model's message and
      the outputs of the tool calls, in call order. */
  lemma RespondSecondOutputs(prompt: seq<Message>, env: Env)
    ensures var r := Respond(prompt, env);
            var reply := env.llm(Request(prompt, true));
            |r.requests| == 2 ==>
              && reply.Some?
              && r.requests[1].messages == prompt + [Calls(reply.value)] + OutputsOf(reply.value.toolCalls, Tools(env))
  {
    var reply := env.llm(Request(prompt, true));
    if reply.Some? && reply.value.toolCalls != [] {
      var run := RunTools(reply.value.toolCalls, Tools(env), ToolRun([], None));
      if run.Some? {
        assert run.value.outputs == OutputsOf(reply.value.toolCalls, Tools(env));
      }
    }
  }

  /** A reply without tool calls is the answer: one request, the reply's text or the
      fallback, and no location. */
  lemma RespondDirect(prompt: seq<Message>, env: Env)
    requires env.llm(Request(prompt, true)).Some? && env.llm(Request(prompt, true)).value.toolCalls == []
    ensures var r := Respond(prompt, env);
            var content := env.llm(Request(prompt, true)).value.content;
            && |r.requests| == 1 && r.location.None?
            && (Truthy(content) ==> r.text == content.value)
            && (!Truthy(content) ==> r.text == Fallback)
  {
  }

  /** After a second request the answer is that request's text or the fallback, or the
      apology when it raises; the location is the last lookup's, kept only when the
      second request succeeds. */
  lemma RespondFinal(prompt: seq<Message>, env: Env)
    requires |Respond(prompt, env).requests| == 2
    ensures var r := Respond(prompt, env);
            var reply := env.llm(Request(prompt, true));
            var final := env.llm(r.requests[1]);
            && reply.Some?
            && (final.None? ==> r.text == Apology && r.location.None?)
            && (final.Some? ==> r.text == AnswerText(final.value.content) &&
                                r.location == LastLookup(reply.value.toolCalls, Tools(env)).GetOr(None))
  {
    var reply := env.llm(Request(prompt, true));
    if reply.Some? && reply.value.toolCalls != [] {
      RunToolsSpec(reply.value.toolCalls, Tools(env), ToolRun([], None));
    }
  }

  /** The location sent is the last lookup's, and only when both requests succeeded. */
  lemma RespondLocation(prompt: seq<Message>, env: Env)
    ensures var r := Respond(prompt, env);
            var reply := env.llm(Request(prompt, true));
            r.location.Some? ==>
              && |r.requests| == 2 && env.llm(r.requests[1]).Some?
              && reply.Some? && LastLookup(reply.value.toolCalls, Tools(env)) == Some(r.location)
  {
    var reply := env.llm(Request(prompt, true));
    if reply.Some? && reply.value.toolCalls != [] {
      RunToolsSpec(reply.value.toolCalls, Tools(env), ToolRun([], None));
    }
  }

  /** A tool call that raises loses everything: the apology, no location, and no second
      request, even when an earlier call found a location. */
  lemma RespondToolRaises(prompt: seq<Message>, env: Env, k: nat)
    requires var reply := env.llm(Request(prompt, true));
             reply.Some? && k < |reply.value.toolCalls| && RunTool(reply.value.toolCalls[k], env).None?
    ensures var r := Respond(prompt, env);
            r.text == Apology && r.location.None? && |r.requests| == 1
  {
    var reply := env.llm(Request(prompt, true));
    var calls := reply.value.toolCalls;
    assert Tools(env)(calls[k]).None?;
    RunToolsSpec(calls, Tools(env), ToolRun([], None));
  }
}
