/** One turn of the agent (`runAgent`) as a pure transition over the conversation
    history, the request `callGemini` builds, the interactive loop's exit test, and
    a whole session of user lines. The remote model is an abstract function from
    the request to an optional response (`None` is the `null` returned when the
    call throws); `JSON.stringify` is an abstract `serialize` function. */
module Agent {
  import opened Wrappers
  import Ascii
  import opened Tools

  datatype Role = User | Model | Function

  /** One history entry `{ role, parts: [{ text }] }`. */
  datatype Turn = Turn(role: Role, text: string)

  datatype FunctionCall = FunctionCall(name: string, args: Args)

  /** A content part: it may carry a function call, a text, both, or neither. */
  datatype Part = Part(functionCall: Option<FunctionCall>, text: Option<string>)

  /** `candidate.content.parts`; a missing list is the empty one. */
  type Candidate = seq<Part>

  /** `response.candidates`; a missing list is the empty one. */
  type Response = seq<Candidate>

  /** What the turn reported on the console, or, for `ToolThrew`, the uncaught
      error that ends the process. */
  datatype Outcome =
    | NoResponse
    | NoParts
    | ToolRan(tool: Tool, result: Value)
    | ToolNotFound(name: string)
    | TextReply(text: string)
    | Unexpected
    | ToolThrew(tool: Tool)

  datatype Step = Step(history: seq<Turn>, outcome: Outcome)

  function UserTurn(text: string): Turn {
    Turn(User, text)
  }

  /** The `contents` of the outbound request: the history followed by the user turn. */
  function Contents(history: seq<Turn>, userText: string): (c: seq<Turn>)
    ensures |c| == |history| + 1
    ensures c[..|history|] == history
    ensures c[|history|] == UserTurn(userText)
  {
    history + [UserTurn(userText)]
  }

  /** `candidates[0].content.parts[0]`, when the response has it. */
  function FirstPart(resp: Option<Response>): Option<Part> {
    if resp.None? || |resp.value| == 0 || |resp.value[0]| == 0 then None
    else Some(resp.value[0][0])
  }

  /** The response asks for `getCryptoPrice` with a missing or non-string `coin`,
      which makes the tool throw. */
  predicate Throws(resp: Option<Response>) {
    var p := FirstPart(resp);
    && p.Some? && p.value.functionCall.Some?
    && Lookup(p.value.functionCall.value.name) == Some(CryptoPriceTool)
    && !Conforms(p.value.functionCall.value.args, Declared(CryptoPriceTool))
  }

  /** A JavaScript string is truthy when it is not empty. */
  predicate Truthy(text: Option<string>) {
    text.Some? && text.value != ""
  }

  /** Interprets the first part of the first candidate, after the user turn has
      already been pushed onto `pushed`. */
  function Handle(pushed: seq<Turn>, resp: Option<Response>, serialize: Value -> string): (s: Step)
    ensures pushed <= s.history
    ensures |s.history| == |pushed| + 1 <==> s.outcome.ToolRan? || s.outcome.TextReply?
    ensures |s.history| <= |pushed| + 1
    ensures s.outcome.ToolRan? ==>
              s.history[|pushed|] == Turn(Function, serialize(s.outcome.result))
    ensures s.outcome.TextReply? ==>
              s.history[|pushed|] == Turn(Model, s.outcome.text) && s.outcome.text != ""
    ensures resp.None? || |resp.value| == 0 <==> s.outcome == NoResponse
    ensures s.outcome == NoParts <==> resp.Some? && |resp.value| > 0 && |resp.value[0]| == 0
    ensures s.outcome.ToolThrew? <==> Throws(resp)
  {
    if resp.None? || |resp.value| == 0 then
      Step(pushed, NoResponse)
    else if |resp.value[0]| == 0 then
      Step(pushed, NoParts)
    else
      var part := resp.value[0][0];
      if part.functionCall.Some? then
        var fc := part.functionCall.value;
        match Lookup(fc.name)
        case Some(tool) =>
          (match Invoke(tool, fc.args)
           case Returned(result) =>
             Step(pushed + [Turn(Function, serialize(result))], ToolRan(tool, result))
           case ThrewTypeError =>
             Step(pushed, ToolThrew(tool)))
        case None =>
          Step(pushed, ToolNotFound(fc.name))
      else if Truthy(part.text) then
        Step(pushed + [Turn(Model, part.text.value)], TextReply(part.text.value))
      else
        Step(pushed, Unexpected)
  }

  /** The request `callGemini` sends during `runAgent`: built from the history
      after the user turn was pushed, so it ends with that turn twice. */
  function Request(history: seq<Turn>, userText: string): (c: seq<Turn>)
    ensures c == history + [UserTurn(userText), UserTurn(userText)]
  {
    Contents(history + [UserTurn(userText)], userText)
  }

  /** `runAgent`: push the user turn, ask the remote model, handle its answer. */
  function RunAgent(history: seq<Turn>, userText: string,
                    remote: seq<Turn> -> Option<Response>,
                    serialize: Value -> string): (s: Step)
    ensures |history| < |s.history| <= |history| + 2
    ensures s.history[..|history| + 1] == history + [UserTurn(userText)]
    ensures forall i :: |history| < i < |s.history| ==> s.history[i].role != User
  {
    var pushed := history + [UserTurn(userText)];
    var s := Handle(pushed, remote(Contents(pushed, userText)), serialize);
    assert s.history[..|pushed|] == pushed;
    s
  }

  // ---------------------------------------------------------------- turn properties

  /** When the call fails, returns no candidate, or its first candidate has no
      parts, the turn leaves exactly the user turn behind. */
  lemma EmptyAnswerKeepsUserTurn(history: seq<Turn>, userText: string,
                                 remote: seq<Turn> -> Option<Response>,
                                 serialize: Value -> string)
    requires var resp := remote(Request(history, userText));
             resp.None? || |resp.value| == 0 || |resp.value[0]| == 0
    ensures RunAgent(history, userText, remote, serialize).history
              == history + [UserTurn(userText)]
    ensures RunAgent(history, userText, remote, serialize).outcome in {NoResponse, NoParts}
  {
  }

  /** The remote model is consulted once, on `Request`: two remote models that
      answer that request alike give the same turn. */
  lemma RemoteSeesOnlyRequest(history: seq<Turn>, userText: string,
                              r1: seq<Turn> -> Option<Response>,
                              r2: seq<Turn> -> Option<Response>,
                              serialize: Value -> string)
    requires r1(Request(history, userText)) == r2(Request(history, userText))
    ensures RunAgent(history, userText, r1, serialize) == RunAgent(history, userText, r2, serialize)
  {
  }

  /** Only the first part of the first candidate is looked at: any two responses
      that agree on it lead to the same step. */
  lemma OnlyFirstPartMatters(pushed: seq<Turn>, r1: Response, r2: Response,
                             serialize: Value -> string)
    requires |r1| > 0 && |r2| > 0 && |r1[0]| > 0 && |r2[0]| > 0
    requires r1[0][0] == r2[0][0]
    ensures Handle(pushed, Some(r1), serialize) == Handle(pushed, Some(r2), serialize)
  {
  }

  /** A function call in a part wins over a text in the same part. */
  lemma CallTakesPrecedence(pushed: seq<Turn>, fc: FunctionCall, text: Option<string>,
                            serialize: Value -> string)
    ensures Handle(pushed, Some([[Part(Some(fc), text)]]), serialize)
              == Handle(pushed, Some([[Part(Some(fc), None)]]), serialize)
    ensures Handle(pushed, Some([[Part(Some(fc), text)]]), serialize).outcome
              !in {Unexpected, NoResponse, NoParts}
  {
  }

  /** A call to a registered tool that returns appends exactly the serialized
      result as a function turn; one that throws (`getCryptoPrice` without a
      string `coin`) and a call to any other name append nothing. */
  lemma ToolCallAppendsResult(pushed: seq<Turn>, resp: Response, serialize: Value -> string)
    requires |resp| > 0 && |resp[0]| > 0 && resp[0][0].functionCall.Some?
    ensures var fc := resp[0][0].functionCall.value;
            var s := Handle(pushed, Some(resp), serialize);
            match Lookup(fc.name)
            case Some(t) =>
              (match Invoke(t, fc.args)
               case Returned(v) => s == Step(pushed + [Turn(Function, serialize(v))], ToolRan(t, v))
               case ThrewTypeError => s == Step(pushed, ToolThrew(t)))
            case None =>
              s == Step(pushed, ToolNotFound(fc.name))
  {
  }

  /** A part without a call appends its text as a model turn exactly when the text
      is not empty; otherwise the format is reported as unexpected. */
  lemma TextPartAppendsText(pushed: seq<Turn>, resp: Response, serialize: Value -> string)
    requires |resp| > 0 && |resp[0]| > 0 && resp[0][0].functionCall.None?
    ensures var part := resp[0][0];
            var s := Handle(pushed, Some(resp), serialize);
            if part.text.Some? && part.text.value != "" then
              s == Step(pushed + [Turn(Model, part.text.value)], TextReply(part.text.value))
            else
              s == Step(pushed, Unexpected)
  {
  }

  // ---------------------------------------------------------------- the loop

  /** The exit test of the interactive loop: the line lower-cases to "exit". */
  function IsExit(line: string): (b: bool)
    ensures b <==> Ascii.CaseVariant(line, "exit")
  {
    Ascii.ToLowerIsWord(line, "exit");
    Ascii.ToLower(line) == "exit"
  }

  /** The lines the loop hands to `runAgent`: those before the first exit line. */
  function UntilExit(lines: seq<string>): (r: seq<string>)
    ensures r <= lines
    ensures forall i :: 0 <= i < |r| ==> !IsExit(r[i])
    ensures |r| < |lines| ==> IsExit(lines[|r|])
  {
    if |lines| == 0 || IsExit(lines[0]) then [] else [lines[0]] + UntilExit(lines[1..])
  }

  /** The end of a session: the history, how many lines were handed to
      `runAgent`, and whether the last of them ended the process with an
      uncaught error. */
  datatype Run = Run(history: seq<Turn>, handled: nat, crashed: bool)

  /** The interactive loop over a sequence of input lines: run one turn per line
      until a line is the exit word, or until a tool throws, which nothing
      catches. */
  function Session(history: seq<Turn>, lines: seq<string>,
                   remote: seq<Turn> -> Option<Response>,
                   serialize: Value -> string): (r: Run)
    ensures history <= r.history
    ensures r.handled <= |UntilExit(lines)|
    ensures !r.crashed ==> r.handled == |UntilExit(lines)|
    ensures r.crashed ==> r.handled >= 1
    decreases |lines|
  {
    if |lines| == 0 || IsExit(lines[0]) then
      Run(history, 0, false)
    else
      var s := RunAgent(history, lines[0], remote, serialize);
      assert history <= s.history;
      if s.outcome.ToolThrew? then
        Run(s.history, 1, true)
      else
        var r := Session(s.history, lines[1..], remote, serialize);
        Run(r.history, r.handled + 1, r.crashed)
  }

  /** The texts of the user turns of a history, in order. */
  function UserTexts(h: seq<Turn>): seq<string> {
    if |h| == 0 then []
    else UserTexts(h[..|h| - 1]) + (if h[|h| - 1].role == User then [h[|h| - 1].text] else [])
  }

  lemma {:induction false} UserTextsAppend(a: seq<Turn>, b: seq<Turn>)
    ensures UserTexts(a + b) == UserTexts(a) + UserTexts(b)
    decreases |b|
  {
    if |b| == 0 {
      assert a + b == a;
    } else {
      var b' := b[..|b| - 1];
      assert (a + b)[..|a + b| - 1] == a + b';
      UserTextsAppend(a, b');
    }
  }

  lemma NoUserTurns(h: seq<Turn>)
    requires forall i :: 0 <= i < |h| ==> h[i].role != User
    ensures UserTexts(h) == []
  {
    if |h| > 0 {
      NoUserTurns(h[..|h| - 1]);
    }
  }

  /** One turn adds exactly its own line to the user texts of the history. */
  lemma RunAgentAddsOneUserText(history: seq<Turn>, userText: string,
                                remote: seq<Turn> -> Option<Response>,
                                serialize: Value -> string)
    ensures UserTexts(RunAgent(history, userText, remote, serialize).history)
              == UserTexts(history) + [userText]
  {
    var h := RunAgent(history, userText, remote, serialize).history;
    var n := |history| + 1;
    var tail := h[n..];
    assert h == history + [UserTurn(userText)] + tail by {
      assert h == h[..n] + tail;
    }
    assert forall i :: 0 <= i < |tail| ==> tail[i] == h[n + i];
    NoUserTurns(tail);
    UserTextsAppend(history + [UserTurn(userText)], tail);
    UserTextsAppend(history, [UserTurn(userText)]);
    assert UserTexts([UserTurn(userText)]) == [userText] by {
      assert [UserTurn(userText)][..0] == [];
    }
  }

  /** Each line handed to `runAgent` adds one user turn and at most one model or
      function turn. */
  lemma {:induction false} SessionExtendsHistory(history: seq<Turn>, lines: seq<string>,
                                                 remote: seq<Turn> -> Option<Response>,
                                                 serialize: Value -> string)
    ensures var r := Session(history, lines, remote, serialize);
            |history| + r.handled <= |r.history| <= |history| + 2 * r.handled
    decreases |lines|
  {
    if |lines| > 0 && !IsExit(lines[0]) {
      var s := RunAgent(history, lines[0], remote, serialize);
      if !s.outcome.ToolThrew? {
        SessionExtendsHistory(s.history, lines[1..], remote, serialize);
      }
    }
  }

  lemma TakeCons<T>(x: T, rest: seq<T>, k: nat)
    requires 1 <= k <= 1 + |rest|
    ensures ([x] + rest)[..k] == [x] + rest[..k - 1]
  {
  }

  /** The user turns a session adds are exactly the lines it handed to
      `runAgent`, in order: a prefix of the lines before the first exit line. */
  lemma {:induction false} SessionRecordsInputs(history: seq<Turn>, lines: seq<string>,
                                                remote: seq<Turn> -> Option<Response>,
                                                serialize: Value -> string)
    ensures var r := Session(history, lines, remote, serialize);
            UserTexts(r.history) == UserTexts(history) + UntilExit(lines)[..r.handled]
    decreases |lines|
  {
    var r := Session(history, lines, remote, serialize);
    if |lines| == 0 || IsExit(lines[0]) {
      assert r.handled == 0;
    } else {
      var s := RunAgent(history, lines[0], remote, serialize);
      var rest := UntilExit(lines[1..]);
      assert UntilExit(lines) == [lines[0]] + rest;
      RunAgentAddsOneUserText(history, lines[0], remote, serialize);
      if s.outcome.ToolThrew? {
        assert r == Run(s.history, 1, true);
        TakeCons(lines[0], rest, 1);
      } else {
        var r' := Session(s.history, lines[1..], remote, serialize);
        assert r == Run(r'.history, r'.handled + 1, r'.crashed);
        SessionRecordsInputs(s.history, lines[1..], remote, serialize);
        TakeCons(lines[0], rest, r.handled);
      }
    }
  }

  /** Sessions compose: running the lines `a` (none of them an exit line, and no
      tool throwing) and then `b` gives the same history as running `a + b`, so
      each reply stays right after the user turn it answers. */
  lemma {:induction false} SessionComposes(history: seq<Turn>, a: seq<string>, b: seq<string>,
                                           remote: seq<Turn> -> Option<Response>,
                                           serialize: Value -> string)
    requires forall i :: 0 <= i < |a| ==> !IsExit(a[i])
    requires !Session(history, a, remote, serialize).crashed
    ensures Session(history, a + b, remote, serialize).history
              == Session(Session(history, a, remote, serialize).history, b, remote, serialize).history
    decreases |a|
  {
    if |a| == 0 {
      assert a + b == b;
    } else {
      var s := RunAgent(history, a[0], remote, serialize);
      assert (a + b)[0] == a[0] && (a + b)[1..] == a[1..] + b;
      SessionComposes(s.history, a[1..], b, remote, serialize);
    }
  }

  /** When no answer of the remote model makes a tool throw, the session handles
      every line before the first exit line. */
  lemma {:induction false} SessionCompletesWithoutThrow(history: seq<Turn>, lines: seq<string>,
                                                        remote: seq<Turn> -> Option<Response>,
                                                        serialize: Value -> string)
    requires forall c :: !Throws(remote(c))
    ensures !Session(history, lines, remote, serialize).crashed
    ensures Session(history, lines, remote, serialize).handled == |UntilExit(lines)|
    decreases |lines|
  {
    if |lines| > 0 && !IsExit(lines[0]) {
      var s := RunAgent(history, lines[0], remote, serialize);
      assert !Throws(remote(Request(history, lines[0])));
      assert !s.outcome.ToolThrew?;
      SessionCompletesWithoutThrow(s.history, lines[1..], remote, serialize);
    }
  }

  /** A turn whose tool throws ends the session: no later line is handled. */
  lemma ThrowEndsSession(history: seq<Turn>, lines: seq<string>,
                         remote: seq<Turn> -> Option<Response>,
                         serialize: Value -> string)
    requires |lines| > 0 && !IsExit(lines[0])
    requires Throws(remote(Request(history, lines[0])))
    ensures Session(history, lines, remote, serialize)
              == Run(history + [UserTurn(lines[0])], 1, true)
  {
  }

  /** One user turn per line, in order. */
  function UserTurns(lines: seq<string>): seq<Turn> {
    if |lines| == 0 then [] else [UserTurn(lines[0])] + UserTurns(lines[1..])
  }

  /** With a remote model that always fails, the loop keeps going: the history
      gains one user turn per line before the exit line and nothing else. */
  lemma {:induction false} FailingRemoteKeepsOnlyUserTurns(history: seq<Turn>, lines: seq<string>,
                                                           remote: seq<Turn> -> Option<Response>,
                                                           serialize: Value -> string)
    requires forall c :: remote(c).None?
    ensures Session(history, lines, remote, serialize)
              == Run(history + UserTurns(UntilExit(lines)), |UntilExit(lines)|, false)
    decreases |lines|
  {
    if |lines| == 0 || IsExit(lines[0]) {
      assert UntilExit(lines) == [];
    } else {
      var next := history + [UserTurn(lines[0])];
      var rest := UntilExit(lines[1..]);
      assert remote(Request(history, lines[0])).None?;
      assert RunAgent(history, lines[0], remote, serialize) == Step(next, NoResponse);
      FailingRemoteKeepsOnlyUserTurns(next, lines[1..], remote, serialize);
      assert UntilExit(lines) == [lines[0]] + rest;
      assert UserTurns([lines[0]] + rest) == [UserTurn(lines[0])] + UserTurns(rest) by {
        assert ([lines[0]] + rest)[1..] == rest;
      }
    }
  }

  // ---------------------------------------------------------------- scenarios

  /** "What is 7 plus 5?" answered by a call of `sum` with 7 and 5 records the
      serialized 12 as a function turn. */
  lemma SumScenario(history: seq<Turn>, remote: seq<Turn> -> Option<Response>,
                    serialize: Value -> string)
    requires remote(Request(history, "What is 7 plus 5?"))
             == Some([[Part(Some(FunctionCall("sum", map["num1" := NumArg(7), "num2" := NumArg(5)])), None)]])
    ensures RunAgent(history, "What is 7 plus 5?", remote, serialize)
              == Step(history + [UserTurn("What is 7 plus 5?"), Turn(Function, serialize(Num(12)))],
                      ToolRan(SumTool, Num(12)))
  {
  }

  /** "exit" and "EXIT" both end the loop before any turn runs. */
  lemma ExitScenario(history: seq<Turn>, rest: seq<string>,
                     remote: seq<Turn> -> Option<Response>, serialize: Value -> string)
    ensures Session(history, ["exit"] + rest, remote, serialize) == Run(history, 0, false)
    ensures Session(history, ["EXIT"] + rest, remote, serialize) == Run(history, 0, false)
  {
  }
}
