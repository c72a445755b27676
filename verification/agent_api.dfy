/** The chat endpoint of the RAG API: the guard order of `chat` and
    `parse_agent_response`, which looks for a JSON object between the first
    `{` and the last `}` of the agent's output and otherwise hands the raw
    output back as the answer. `json.loads` followed by validation against
    `AgentResponse` is a parameter: a partial decoder that yields `None`
    wherever the source catches an exception. */
module AgentApi {
  import opened Wrappers
  import opened PyStr

  /** The fields of a validated `AgentResponse`. */
  datatype AgentAnswer = AgentAnswer(answer: string, sources: seq<string>, chunksRetrieved: int, relationshipsFound: int)

  /** `ChatResponse` */
  datatype ChatResponse = ChatResponse(success: bool, answer: string, sources: seq<string>, chunksRetrieved: int, relationshipsFound: int)

  /** `json.loads` then `AgentResponse(**data)`; `None` for any exception. */
  type Decoder = string -> Option<AgentAnswer>

  /** `s.find(c)` for one character finds the first position holding `c`. */
  lemma FindChar(s: string, c: char)
    ensures Find(s, [c], 0) == -1 <==> c !in s
    ensures Find(s, [c], 0) != -1 ==>
      0 <= Find(s, [c], 0) < |s| && s[Find(s, [c], 0)] == c && c !in s[..Find(s, [c], 0)]
    ensures forall j :: 0 <= j < |s| && s[j] == c ==> Find(s, [c], 0) != -1 && Find(s, [c], 0) <= j
  {
    var r := Find(s, [c], 0);
    if r == -1 {
      forall j | 0 <= j < |s|
        ensures s[j] != c
      {
        assert !OccursAt(s, [c], j);
        assert s[j..j + 1] == [s[j]];
      }
      assert c !in s;
    } else {
      assert s[r..r + 1] == [c];
      assert s[r] in s;
      forall j | 0 <= j < r
        ensures s[..r][j] != c
      {
        assert !OccursAt(s, [c], j);
        assert s[j..j + 1] == [s[j]];
      }
    }
  }

  /** The candidate JSON text: `output[find("{") : rfind("}") + 1]` when a
      `{` exists and the last `}` lies after it. */
  function BraceSpan(s: string): Option<string> {
    var start := Find(s, "{", 0);
    var end := RFind(s, '}') + 1;
    if start != -1 && end > start then Some(Slice(s, start, end)) else None
  }

  /** The answer returned when no object can be decoded. */
  function Fallback(output: string): ChatResponse {
    ChatResponse(true, output, [], 0, 0)
  }

  /** `parse_agent_response(output_str)` */
  function ParseAgentResponse(output: string, decode: Decoder): ChatResponse {
    match BraceSpan(output)
    case Some(span) =>
      (match decode(span)
       case Some(a) => ChatResponse(true, a.answer, a.sources, a.chunksRetrieved, a.relationshipsFound)
       case None => Fallback(output))
    case None => Fallback(output)
  }

  // ------------------------------------------------------------------ the brace span

  /** A span exists exactly when some `{` is followed, later in the text, by
      a `}`; it then runs from the first `{` to the last `}` inclusive. */
  lemma BraceSpanSpec(s: string) returns (start: int, last: int)
    ensures BraceSpan(s).Some? <==> exists i, j :: 0 <= i < j < |s| && s[i] == '{' && s[j] == '}'
    ensures BraceSpan(s).Some? ==>
      && 0 <= start < last < |s| && BraceSpan(s).value == s[start..last + 1]
      && s[start] == '{' && '{' !in s[..start]
      && s[last] == '}' && '}' !in s[last + 1..]
  {
    FindChar(s, '{');
    start := Find(s, "{", 0);
    last := RFind(s, '}');
    if BraceSpan(s).Some? {
      assert s[start] == '{' && s[last] == '}';
      assert BraceSpan(s).value == s[start..last + 1];
    }
  }

  /** The partner of the span search: an object placed between a prefix
      without `{` and a suffix without `}` is exactly what gets cut out. */
  lemma BraceSpanEmbedded(pre: string, body: string, post: string)
    requires '{' !in pre && '}' !in post
    ensures BraceSpan(pre + "{" + body + "}" + post) == Some("{" + body + "}")
  {
    var s := pre + "{" + body + "}" + post;
    FindCharAfterFree(pre, '{', body + "}" + post);
    assert s == pre + ['{'] + (body + "}" + post);
    var k := |pre| + 1 + |body|;
    assert s[k] == '}';
    assert s[k + 1..] == post;
    forall j | k < j < |s|
      ensures s[j] != '}'
    {
      assert s[j] == post[j - k - 1];
    }
    assert RFind(s, '}') == k;
    assert s[|pre|..k + 1] == "{" + body + "}";
  }

  // ------------------------------------------------------------------ parsing

  /** `success` is set on every path. */
  lemma ParseAlwaysSucceeds(output: string, decode: Decoder)
    ensures ParseAgentResponse(output, decode).success
  {
  }

  /** When the span decodes, every field comes from the decoded object. */
  lemma ParseDecoded(output: string, decode: Decoder, span: string, a: AgentAnswer)
    requires BraceSpan(output) == Some(span) && decode(span) == Some(a)
    ensures var r := ParseAgentResponse(output, decode);
      r.answer == a.answer && r.sources == a.sources
      && r.chunksRetrieved == a.chunksRetrieved && r.relationshipsFound == a.relationshipsFound
  {
  }

  /** Without a `{ … }` span, or when it does not decode, the whole output
      is the answer, with no sources and both counts 0. */
  lemma ParseFallsBack(output: string, decode: Decoder)
    requires BraceSpan(output).None? || decode(BraceSpan(output).value).None?
    ensures ParseAgentResponse(output, decode) == ChatResponse(true, output, [], 0, 0)
  {
  }

  /** Text without any `{` is never handed to the decoder. */
  lemma ParseNoBrace(output: string, decode: Decoder)
    requires '{' !in output
    ensures ParseAgentResponse(output, decode).answer == output
    ensures ParseAgentResponse(output, decode).sources == []
  {
    var _, _ := BraceSpanSpec(output);
  }

  // ------------------------------------------------------------------ the endpoint

  /** What `chat` returns: a response, or an `HTTPException`. */
  datatype ChatOutcome = Reply(response: ChatResponse) | HttpError(status: nat, detail: string)

  /** `chat(request)`. `agentReady` is `agent is not None`; `run` is what
      `Runner.run` produces, the final output or the message of the
      exception it raised. */
  function Chat(message: string, agentReady: bool, run: Result<string, string>, decode: Decoder): ChatOutcome {
    if Strip(message) == [] then HttpError(400, "Message cannot be empty")
    else if !agentReady then HttpError(503, "Agent not initialized")
    else match run
      case Success(out) => Reply(ParseAgentResponse(out, decode))
      case Failure(e) => HttpError(500, e)
  }

  /** A message of whitespace only is refused with 400 whatever the state
      of the agent, so the emptiness test comes before the 503; any other
      message gets past it. */
  lemma ChatRejectsBlank(message: string, agentReady: bool, run: Result<string, string>, decode: Decoder)
    ensures (forall i | 0 <= i < |message| :: IsSpace(message[i])) <==>
      Chat(message, agentReady, run, decode) == HttpError(400, "Message cannot be empty")
  {
    StripEmptyIff(message);
  }

  /** With a non-blank message, the agent check decides between 503 and a
      run; a run that raises gives 500 with its message, and one that
      finishes gives the parsed output. */
  lemma ChatOutcomes(message: string, agentReady: bool, run: Result<string, string>, decode: Decoder)
    requires exists i | 0 <= i < |message| :: !IsSpace(message[i])
    ensures !agentReady ==> Chat(message, agentReady, run, decode) == HttpError(503, "Agent not initialized")
    ensures agentReady && run.Failure? ==> Chat(message, agentReady, run, decode) == HttpError(500, run.error)
    ensures agentReady && run.Success? ==>
      Chat(message, agentReady, run, decode).Reply? && Chat(message, agentReady, run, decode).response.success
  {
    StripEmptyIff(message);
  }
}
