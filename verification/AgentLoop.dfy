/**
  * The agent's loop, asked until it decides: `run`, `callTool` and `emptyAnswer` of
  * packages/agen-runtime/src/loop.ts, `planFor` of depth.ts and `readTurn` of schema.ts.
  *
  * The model and the tools are arbitrary: a World answers every question the loop can ask.
  */
module AgentLoop {

  import opened Basics
  import opened ReplyText

  // ----- how hard to work -------------------------------------------------------------------------

  datatype Depth = Quick | Research | Investigate

  datatype Plan = Plan(depth: Depth, maxTurns: nat, maxParts: nat)

  function Turns(depth: Depth): nat {
    match depth
    case Quick => 4
    case Research => 8
    case Investigate => 12
  }

  function Parts(depth: Depth): nat {
    match depth
    case Quick => 1
    case Research => 2
    case Investigate => 3
  }

  function Held(chosen: nat, limit: Option<int>): nat {
    Max(1, Min(chosen, if limit.Some? then limit.value else chosen))
  }

  function PlanFor(depth: Depth, maxTurns: Option<int>, maxParts: Option<int>): Plan {
    Plan(depth, Held(Turns(depth), maxTurns), Held(Parts(depth), maxParts))
  }

  // ----- what the model said ------------------------------------------------------------------------

  /** A field of the model's response: missing, a string, or anything else. */
  datatype Field = Absent | Str(text: Text) | Other

  datatype Raw = Raw(intent: Field, act: Field, thought: Field, tool: Field, arguments: Field, reply: Field,
                     reply2: Field, reply3: Field, reason: Field, answer: Field, name: Field, ticker: Field,
                     description: Field)

  datatype Act = Tool | Reply | Refuse | Silence

  datatype Launch = Launch(name: Text, ticker: Text, description: Text)

  datatype Turn = Turn(thought: Text, act: Act, tool: Option<Text>, arguments: Text, reply: Option<Text>,
                       parts: seq<Text>, reason: Option<Text>, legacyLaunch: Option<Launch>)

  function AsString(f: Field): Option<Text> { if f.Str? && Trim(f.text) != [] then Some(f.text) else None }

  function OrElse(value: Option<Text>, default: Text): Text { if value.Some? then value.value else default }

  function Present(values: seq<Option<Text>>): (said: seq<Text>)
    ensures |said| <= |values|
  {
    if values == [] then [] else (if values[0].Some? then [values[0].value] else []) + Present(values[1..])
  }

  function ReadAct(f: Field): Act {
    if f == Str(Units("tool")) then Tool
    else if f == Str(Units("reply")) then Reply
    else if f == Str(Units("refuse")) then Refuse
    else Silence
  }

  function ReadLegacy(raw: Raw): Option<Turn> {
    if !raw.intent.Str? || raw.act != Absent then None
    else if raw.intent.text == Units("LAUNCH") then
      Some(Turn(Units("legacy launch"), Tool, Some(Units("launch_instant")), Units("{}"), None, [], None,
                Some(Launch(OrElse(AsString(raw.name), []), OrElse(AsString(raw.ticker), []),
                            OrElse(AsString(raw.description), [])))))
    else if raw.intent.text == Units("QUESTION") then
      Some(Turn(Units("legacy question"), Reply, None, Units("{}"), AsString(raw.answer),
                Present([AsString(raw.answer)]), None, None))
    else Some(Turn(Units("legacy unknown"), Silence, None, Units("{}"), None, [], None, None))
  }

  function ReadTurn(raw: Raw): Turn {
    if ReadLegacy(raw).Some? then ReadLegacy(raw).value
    else
      var act := ReadAct(raw.act);
      var named := AsString(raw.tool);
      Turn(OrElse(AsString(raw.thought), []), act,
           if act == Tool && named.Some? then Some(Trim(named.value)) else None,
           if act == Tool then OrElse(AsString(raw.arguments), Units("{}")) else Units("{}"),
           if act == Reply then AsString(raw.reply) else None,
           if act == Reply then Present([AsString(raw.reply), AsString(raw.reply2), AsString(raw.reply3)]) else [],
           if act == Refuse then AsString(raw.reason) else None,
           None)
  }

  lemma {:induction false} PresentAreSaid(values: seq<Option<Text>>, part: Text)
    requires part in Present(values)
    ensures Some(part) in values
  {
    if !(values[0] == Some(part)) {
      PresentAreSaid(values[1..], part);
    }
  }

  lemma PartsSaySomething(raw: Raw)
    ensures forall p | p in ReadTurn(raw).parts :: Trim(p) != []
  {
    hide Units, Trim;
    forall p | p in ReadTurn(raw).parts ensures Trim(p) != [] {
      PresentAreSaid(if ReadLegacy(raw).Some? then [AsString(raw.answer)]
                     else [AsString(raw.reply), AsString(raw.reply2), AsString(raw.reply3)], p);
    }
  }

  /** A turn says at most three things, each of them something, and only in the fields of its act. */
  lemma TurnsAreWellFormed(raw: Raw)
    ensures
      var t := ReadTurn(raw);
      && |t.parts| <= 3 && (forall p | p in t.parts :: Trim(p) != [])
      && (t.act != Reply ==> t.parts == [] && t.reply.None?)
      && (t.reply.Some? ==> t.parts != [] && t.parts[0] == t.reply.value)
      && (t.act != Tool ==> t.tool.None? && t.legacyLaunch.None?)
      && (t.act != Refuse ==> t.reason.None?)
      && (t.legacyLaunch.Some? <==> raw.act == Absent && raw.intent == Str(Units("LAUNCH")))
  {
    hide Units, Trim;
    var answer, replies := [AsString(raw.answer)], [AsString(raw.reply), AsString(raw.reply2), AsString(raw.reply3)];
    assert answer[1..] == [];
    assert replies[1..] == [AsString(raw.reply2), AsString(raw.reply3)] && replies[1..][1..] == [AsString(raw.reply3)]
           && replies[1..][1..][1..] == [];
    PartsSaySomething(raw);
  }

  /** A field's text, unless it is blank or no string. */
  function Said(f: Field): seq<Text> { if f.Str? && Words(f.text) != [] then [f.text] else [] }

  lemma SaidIsAsString(f: Field)
    ensures Said(f) == if AsString(f).Some? then [AsString(f).value] else []
  {
    if f.Str? {
      BlankHasNoWords(f.text);
    }
  }

  /** Every field of a response ends up where it belongs, and one of an unknown act or intent is silence. */
  lemma FieldsAreRead(raw: Raw)
    requires !raw.intent.Str? || raw.act != Absent
    ensures
      var t := ReadTurn(raw);
      && (t.act == Tool <==> raw.act == Str(Units("tool"))) && (t.act == Reply <==> raw.act == Str(Units("reply")))
      && (t.act == Refuse <==> raw.act == Str(Units("refuse"))) && t.legacyLaunch.None?
      && [t.thought] == (if Said(raw.thought) == [] then [[]] else Said(raw.thought))
      && t.parts == (if t.act == Reply then Said(raw.reply) + Said(raw.reply2) + Said(raw.reply3) else [])
      && (t.reason.None? <==> t.act != Refuse || Said(raw.reason) == []) && (t.reason.Some? ==> [t.reason.value] == Said(raw.reason))
      && (t.tool.None? <==> t.act != Tool || Said(raw.tool) == []) && (t.tool.Some? ==> t.tool.value == Trim(raw.tool.text))
      && [t.arguments] == (if t.act != Tool || Said(raw.arguments) == [] then [Units("{}")] else Said(raw.arguments))
  {
    ActNamesDiffer();
    hide Units, Words, Trim;
    SaidIsAsString(raw.thought);
    SaidIsAsString(raw.reply);
    SaidIsAsString(raw.reply2);
    SaidIsAsString(raw.reply3);
    SaidIsAsString(raw.reason);
    SaidIsAsString(raw.tool);
    SaidIsAsString(raw.arguments);
    PresentThree(AsString(raw.reply), AsString(raw.reply2), AsString(raw.reply3));
  }

  lemma ActNamesDiffer()
    ensures Units("tool") != Units("reply") && Units("tool") != Units("refuse") && Units("reply") != Units("refuse")
    ensures Units("LAUNCH") != Units("QUESTION")
  {
    assert |Units("tool")| == 4 && |Units("reply")| == 5 && |Units("refuse")| == 6;
  }

  function AsSeq(value: Option<Text>): seq<Text> { if value.Some? then [value.value] else [] }

  lemma PresentOne(a: Option<Text>)
    ensures Present([a]) == AsSeq(a)
  {
    assert [a][1..] == [];
  }

  lemma PresentThree(a: Option<Text>, b: Option<Text>, c: Option<Text>)
    ensures Present([a, b, c]) == AsSeq(a) + AsSeq(b) + AsSeq(c)
  {
    PresentOne(c);
    assert [b, c][1..] == [c] && Present([b, c]) == AsSeq(b) + AsSeq(c);
    assert [a, b, c][1..] == [b, c];
  }

  /** The older shape of a response: a launch with its fields, a question's answer, or silence. */
  lemma LegacyFieldsAreRead(raw: Raw)
    requires raw.intent.Str? && raw.act == Absent
    ensures
      var t, intent := ReadTurn(raw), raw.intent.text;
      && (intent == Units("LAUNCH") ==>
            t.legacyLaunch.Some? && [t.legacyLaunch.value.name] == (if Said(raw.name) == [] then [[]] else Said(raw.name))
            && [t.legacyLaunch.value.ticker] == (if Said(raw.ticker) == [] then [[]] else Said(raw.ticker))
            && [t.legacyLaunch.value.description] == (if Said(raw.description) == [] then [[]] else Said(raw.description)))
      && (intent == Units("QUESTION") ==> t.act == Reply && t.parts == Said(raw.answer) && t.legacyLaunch.None?)
      && (intent != Units("LAUNCH") && intent != Units("QUESTION") ==> t.act == Silence && t.legacyLaunch.None?)
  {
    ActNamesDiffer();
    hide Units, Words, Trim;
    SaidIsAsString(raw.name);
    SaidIsAsString(raw.ticker);
    SaidIsAsString(raw.description);
    SaidIsAsString(raw.answer);
    PresentOne(AsString(raw.answer));
  }

  // ----- tools ----------------------------------------------------------------------------------------

  datatype Kind = Read | Execute

  datatype ToolSpec = ToolSpec(name: Text, kind: Kind, available: bool)

  datatype Arguments = Valid(value: Text) | Invalid(message: Text)

  datatype Outcome = Outcome(ok: bool, text: Text, detail: Text)

  datatype Entry = Entry(tool: Text, arguments: Text, ok: bool, text: Text)

  /** A tool that was actually run, and on which turn. */
  datatype Ran = Ran(turn: nat, tool: ToolSpec, arguments: Text, ok: bool)

  datatype Execution = ByTool(tool: Text, arguments: Text, detail: Text) | ByLaunch(launch: Launch)

  /** The model's answer to a turn, none when it is unreachable; argument parsing; and tool runs. */
  datatype World = World(model: (nat, seq<Entry>) -> Option<Raw>,
                         readArguments: (ToolSpec, Text) -> Arguments,
                         runTool: (nat, ToolSpec, Text) -> Outcome)

  datatype Request = Request(depth: Depth, maxTurns: Option<int>, maxParts: Option<int>, maxReplyChars: Option<int>,
                             execution: bool, tools: seq<ToolSpec>) {
    function Plan(): Plan { PlanFor(depth, maxTurns, maxParts) }

    function ReplyChars(): int { if maxReplyChars.Some? then maxReplyChars.value else 240 }

    /** A tool the model is shown: available, and permitted. */
    predicate Ready(t: ToolSpec) { t in tools && t.available && (execution || t.kind == Read) }

    predicate WantsRetrieval() { depth != Quick && exists t | t in tools :: Ready(t) && t.kind == Read }
  }

  function Get(tools: seq<ToolSpec>, name: Text): (t: Option<ToolSpec>)
    ensures t.Some? ==> t.value in tools && t.value.name == name
  {
    if tools == [] then None
    else if tools[0].name == name then Some(tools[0])
    else Get(tools[1..], name)
  }

  datatype Used = Used(entry: Entry, execution: Option<Execution>, ran: seq<Ran>)

  /** One tool call: what the transcript records, and whether it was an execution that succeeded. */
  function CallTool(request: Request, world: World, turn: nat, name: Option<Text>, raw: Text): Used {
    if name.None? then
      Used(Entry(Units("(none)"), raw, false, Units("You set act to tool but named no tool.")), None, [])
    else
      var tool := Get(request.tools, name.value);
      if tool.None? || !(exists t | t in request.tools :: request.Ready(t) && t.name == name.value) then
        Used(Entry(name.value, raw, false, Units("There is no tool called ") + name.value
                                           + Units(" available on this turn.")), None, [])
      else if tool.value.kind == Execute && !request.execution then
        Used(Entry(name.value, raw, false, Units("Execution is not permitted for this request.")), None, [])
      else
        match world.readArguments(tool.value, raw)
        case Invalid(message) => Used(Entry(name.value, raw, false, message), None, [])
        case Valid(arguments) =>
          var outcome := world.runTool(turn, tool.value, arguments);
          Used(Entry(name.value, arguments, outcome.ok, outcome.text),
               if outcome.ok && tool.value.kind == Execute then Some(ByTool(name.value, arguments, outcome.detail))
               else None,
               [Ran(turn, tool.value, arguments, outcome.ok)])
  }

  // ----- answers --------------------------------------------------------------------------------------

  datatype AnswerKind = Replied | Refusal | Silent | Executed

  datatype Answer = Answer(kind: AnswerKind, reply: Option<Text>, parts: seq<Text>, reason: Option<Text>,
                           execution: Option<Execution>, transcript: seq<Entry>, thoughts: seq<Text>, turns: nat,
                           modelCalls: nat)

  datatype State = State(transcript: seq<Entry>, thoughts: seq<Text>, modelCalls: nat, pushedBack: bool, ran: seq<Ran>) {

    /** An answer whose parts are its reply, unless given. */
    function Answered(kind: AnswerKind, reply: Option<Text>, parts: Option<seq<Text>>, reason: Option<Text>,
                      execution: Option<Execution>, turn: nat): Answer {
      Answer(kind, reply,
             if parts.Some? then parts.value else if reply.None? then [] else [reply.value],
             reason, execution, transcript, thoughts, turn, modelCalls)
    }
  }

  const START := State([], [], 0, false, [])

  /** What it says to an old-style launch it may not make; the wording is the program's own. */
  function Decline(): Text { Units("ask for a launch") }

  /** What the transcript shows a model that answered without looking. */
  function PushBack(): Entry { Entry(Units("(no source consulted)"), [], false, Units("look first")) }

  datatype Step = Next(state: State) | Decided(answer: Answer, ran: seq<Ran>)

  /** Everything the turn wrote, in the order the surface would send it. */
  function Written(decided: Turn): seq<Text> {
    if |decided.parts| > 0 then decided.parts
    else [OrElse(decided.reply, OrElse(decided.reason, []))]
  }

  /** What the loop does with one turn of the model. */
  function Take(request: Request, world: World, s: State, turn: nat, raw: Raw): Step {
    var plan, decided, chars := request.Plan(), ReadTurn(raw), request.ReplyChars();
    var s := s.(modelCalls := s.modelCalls + 1,
                thoughts := if decided.thought != [] then s.thoughts + [decided.thought] else s.thoughts);
    var last := turn >= plan.maxTurns;
    if decided.legacyLaunch.Some? then
      Decided(if !request.execution then s.Answered(Replied, TrimReply(Some(Decline()), chars), None, None, None, turn)
              else s.Answered(Executed, None, None, None, Some(ByLaunch(decided.legacyLaunch.value)), turn), s.ran)
    else if decided.act == Silence then Decided(s.Answered(Silent, None, None, None, None, turn), s.ran)
    else if decided.act == Refuse then
      Decided(s.Answered(Refusal, TrimReply(decided.reason, chars), None, decided.reason, None, turn), s.ran)
    else if decided.act == Reply && !last && request.WantsRetrieval() && |s.transcript| == 0 && !s.pushedBack then
      Next(s.(pushedBack := true, transcript := s.transcript + [PushBack()]))
    else if decided.act == Reply || last then
      var parts := AtMost(Trimmed(Written(decided), chars), Max(1, plan.maxParts));
      Decided(if |parts| == 0 then s.Answered(Silent, None, None, None, None, turn)
              else s.Answered(Replied, Some(parts[0]), Some(parts), None, None, turn), s.ran)
    else
      var used := CallTool(request, world, turn, decided.tool, decided.arguments);
      var after := s.(transcript := s.transcript + [used.entry], ran := s.ran + used.ran);
      if used.execution.Some? then Decided(after.Answered(Executed, None, None, None, used.execution, turn), after.ran)
      else Next(after)
  }

  datatype Result = Finished(answer: Answer, ran: seq<Ran>) | Unreachable(ran: seq<Ran>)

  /** The loop from the head of a turn on. */
  function From(request: Request, world: World, s: State, turn: nat): Result
    decreases request.Plan().maxTurns + 1 - turn
  {
    if turn > request.Plan().maxTurns then
      Finished(s.Answered(Silent, None, None, None, None, request.Plan().maxTurns), s.ran)
    else
      match world.model(turn, s.transcript)
      case None => Unreachable(s.ran)
      case Some(raw) =>
        match Take(request, world, s, turn, raw)
        case Next(state) => From(request, world, state, turn + 1)
        case Decided(answer, ran) => Finished(answer, ran)
  }

  /** Ask, act, and ask again, until something is decided or the turns run out. */
  method Run(request: Request, world: World) returns (result: Result)
    ensures result == From(request, world, START, 1)
  {
    hide CallTool, ReadTurn, Trimmed, TrimReply, PlanFor, Request.WantsRetrieval, Written, Units, AtMost, Decline, PushBack;
    var plan, chars := request.Plan(), request.ReplyChars();
    var transcript: seq<Entry>, thoughts: seq<Text>, modelCalls, pushedBack, ran: seq<Ran> := [], [], 0, false, [];
    var turn := 1;
    while turn <= plan.maxTurns
      invariant From(request, world, State(transcript, thoughts, modelCalls, pushedBack, ran), turn)
                == From(request, world, START, 1)
      decreases plan.maxTurns + 1 - turn
    {
      var last := turn >= plan.maxTurns;
      var response := world.model(turn, transcript);
      if response.None? { return Unreachable(ran); }
      modelCalls := modelCalls + 1;
      var decided := ReadTurn(response.value);
      if decided.thought != [] { thoughts := thoughts + [decided.thought]; }
      var s := State(transcript, thoughts, modelCalls, pushedBack, ran);

      if decided.legacyLaunch.Some? {
        if !request.execution {
          return Finished(s.Answered(Replied, TrimReply(Some(Decline()), chars), None, None, None, turn), ran);
        }
        return Finished(s.Answered(Executed, None, None, None, Some(ByLaunch(decided.legacyLaunch.value)), turn), ran);
      }
      if decided.act == Silence {
        return Finished(s.Answered(Silent, None, None, None, None, turn), ran);
      }
      if decided.act == Refuse {
        return Finished(s.Answered(Refusal, TrimReply(decided.reason, chars), None, decided.reason, None, turn), ran);
      }
      if decided.act == Reply && !last && request.WantsRetrieval() && |transcript| == 0 && !pushedBack {
        pushedBack := true;
        transcript := transcript + [PushBack()];
        turn := turn + 1;
        continue;
      }
      if decided.act == Reply || last {
        var parts := TrimParts(Written(decided), chars, plan.maxParts);
        if |parts| == 0 {
          return Finished(s.Answered(Silent, None, None, None, None, turn), ran);
        }
        return Finished(s.Answered(Replied, Some(parts[0]), Some(parts), None, None, turn), ran);
      }
      var used := CallTool(request, world, turn, decided.tool, decided.arguments);
      transcript := transcript + [used.entry];
      ran := ran + used.ran;
      if used.execution.Some? {
        return Finished(State(transcript, thoughts, modelCalls, pushedBack, ran)
                        .Answered(Executed, None, None, None, used.execution, turn), ran);
      }
      turn := turn + 1;
    }
    return Finished(State(transcript, thoughts, modelCalls, pushedBack, ran)
                    .Answered(Silent, None, None, None, None, plan.maxTurns), ran);
  }

  // ----- the plan is a ceiling --------------------------------------------------------------------------

  /** The surface's limit wins wherever it can, depth grants no less than a lower depth, and one turn always remains. */
  lemma PlansHonourTheSurface(depth: Depth, maxTurns: Option<int>, maxParts: Option<int>)
    ensures
      var p := PlanFor(depth, maxTurns, maxParts);
      && 1 <= p.maxTurns <= 12 && 1 <= p.maxParts <= 3
      && (maxTurns.Some? ==> (p.maxTurns <= maxTurns.value <==> maxTurns.value >= 1))
      && (maxParts.Some? ==> (p.maxParts <= maxParts.value <==> maxParts.value >= 1))
      && PlanFor(Quick, maxTurns, maxParts).maxTurns <= p.maxTurns <= PlanFor(Investigate, maxTurns, maxParts).maxTurns
  {
  }

  /** What each depth allows a surface that sets no limit. */
  lemma BudgetsByDepth()
    ensures PlanFor(Quick, None, None) == Plan(Quick, 4, 1)
    ensures PlanFor(Research, None, None) == Plan(Research, 8, 2)
    ensures PlanFor(Investigate, None, None) == Plan(Investigate, 12, 3)
  {
  }

  lemma PlanAllowsAnAnswer(request: Request)
    ensures request.Plan().maxTurns >= 1 && request.Plan().maxParts >= 1
  {
  }

  // ----- what holds at every loop head ------------------------------------------------------------------

  /** Only permitted tools that the model was shown have run. */
  predicate Permitted(request: Request, ran: seq<Ran>) {
    forall r | r in ran ::
      r.tool in request.tools && (r.tool.kind == Execute ==> request.execution)
      && exists t | t in request.tools :: request.Ready(t) && t.name == r.tool.name
  }

  predicate Spent(r: Ran) { r.tool.kind == Execute && r.ok }

  predicate NoneSpent(ran: seq<Ran>) { forall r | r in ran :: !Spent(r) }

  predicate Head(request: Request, s: State, turn: nat) {
    && 1 <= turn <= request.Plan().maxTurns
    && |s.transcript| == turn - 1 && s.modelCalls == turn - 1 && |s.thoughts| <= turn - 1 && |s.ran| <= turn - 1
    && (s.pushedBack ==> turn >= 2 && s.transcript[0] == PushBack())
    && Permitted(request, s.ran) && NoneSpent(s.ran)
  }

  // ----- what holds of every answer ---------------------------------------------------------------------

  /** Within the budget, one model call a turn, one transcript entry for each turn but an answering one. */
  predicate Counted(request: Request, a: Answer) {
    && 1 <= a.turns <= request.Plan().maxTurns && a.modelCalls == a.turns && |a.thoughts| <= a.turns
    && |a.transcript| == if a.execution.Some? && a.execution.value.ByTool? then a.turns else a.turns - 1
  }

  /** Nothing is executed without the permit; at most one execution succeeds, and it is the answer. */
  predicate SpentAtMostOnce(request: Request, a: Answer, ran: seq<Ran>) {
    && Permitted(request, ran)
    && (a.kind == Executed <==> a.execution.Some?)
    && (a.kind == Executed ==> request.execution)
    && (if a.execution.Some? && a.execution.value.ByTool? then
          ran != [] && NoneSpent(Front(ran)) && Spent(Last(ran))
          && a.execution.value.tool == Last(ran).tool.name && a.execution.value.arguments == Last(ran).arguments
        else NoneSpent(ran))
  }

  /** The reply is the first part, there are no more parts than the plan has, and each one fits. */
  predicate Presented(request: Request, a: Answer) {
    && (a.reply.None? <==> a.parts == [])
    && (a.reply.Some? ==> a.reply.value == a.parts[0])
    && (a.kind == Silent || a.kind == Executed ==> a.parts == [])
    && (a.kind == Replied ==> a.parts != [])
    && |a.parts| <= request.Plan().maxParts
    && forall p | p in a.parts :: Fits(p, request.ReplyChars())
  }

  /** Asked to look, with a tool to look with and a turn to spare, it never replies from nothing. */
  predicate Sourced(request: Request, a: Answer) {
    request.WantsRetrieval() && request.Plan().maxTurns >= 2 && a.kind == Replied && a.transcript == [] ==>
      !request.execution && a.reply == TrimReply(Some(Decline()), request.ReplyChars())
  }

  predicate Sound(request: Request, a: Answer, ran: seq<Ran>) {
    Counted(request, a) && SpentAtMostOnce(request, a, ran) && Presented(request, a) && Sourced(request, a)
  }

  lemma {:induction false} CallsArePermitted(request: Request, world: World, turn: nat, name: Option<Text>, raw: Text)
    ensures
      var used := CallTool(request, world, turn, name, raw);
      && |used.ran| <= 1 && Permitted(request, used.ran)
      && (used.execution.None? ==> NoneSpent(used.ran))
      && (used.execution.Some? ==>
            |used.ran| == 1 && Spent(used.ran[0]) && request.execution
            && used.execution == Some(ByTool(used.ran[0].tool.name, used.ran[0].arguments, used.execution.value.detail)))
  {
  }

  lemma RepliesPresent(request: Request, values: seq<Text>)
    ensures
      var parts := AtMost(Trimmed(values, request.ReplyChars()), request.Plan().maxParts);
      |parts| <= request.Plan().maxParts && forall p | p in parts :: Fits(p, request.ReplyChars())
  {
    hide PlanFor, Trimmed, Fits;
    var all := Trimmed(values, request.ReplyChars());
    var parts := AtMost(all, request.Plan().maxParts);
    forall p | p in parts ensures Fits(p, request.ReplyChars()) {
      assert p in all;
      TrimmedPartsFit(values, request.ReplyChars(), p);
    }
  }

  lemma DeclineIsSaid(chars: int)
    ensures TrimReply(Some(Decline()), chars).Some? && Fits(TrimReply(Some(Decline()), chars).value, chars)
  {
    hide TrimReply;
    assert !IsSpace('a' as int);
    hide IsSpace;
    assert Decline()[0] == 'a' as int;
    RepliesFit(Decline(), chars);
  }

  lemma ReasonFits(reason: Option<Text>, chars: int)
    ensures TrimReply(reason, chars).Some? ==> Fits(TrimReply(reason, chars).value, chars)
  {
    if reason.Some? {
      RepliesFit(reason.value, chars);
    }
  }

  lemma MoreRan(request: Request, before: seq<Ran>, more: seq<Ran>)
    requires Permitted(request, before) && Permitted(request, more) && NoneSpent(before) && |more| <= 1
    ensures Permitted(request, before + more)
    ensures NoneSpent(more) ==> NoneSpent(before + more)
    ensures more != [] ==> Front(before + more) == before && Last(before + more) == more[0]
  {
  }

  /** The two ways a turn continues: a push-back, or a tool call that executed nothing. */
  lemma {:induction false} TurnsContinueTwoWays(request: Request, world: World, s: State, turn: nat, raw: Raw)
    requires Take(request, world, s, turn, raw).Next?
    ensures
      var decided, next := ReadTurn(raw), Take(request, world, s, turn, raw).state;
      var used := CallTool(request, world, turn, decided.tool, decided.arguments);
      && turn < request.Plan().maxTurns && next.modelCalls == s.modelCalls + 1 && |next.thoughts| <= |s.thoughts| + 1
      && (if next.transcript == s.transcript + [PushBack()] && next.ran == s.ran && next.pushedBack && !s.pushedBack then
            s.transcript == []
          else
            next.transcript == s.transcript + [used.entry] && next.ran == s.ran + used.ran && used.execution.None?
            && next.pushedBack == s.pushedBack)
  {
    hide CallTool, ReadTurn, PlanFor, TrimReply, Trimmed, AtMost, Decline, PushBack, Request.WantsRetrieval, Written;
  }

  lemma TurnsContinueInBudget(request: Request, world: World, s: State, turn: nat, raw: Raw)
    requires Head(request, s, turn) && Take(request, world, s, turn, raw).Next?
    ensures
      var next := Take(request, world, s, turn, raw).state;
      Head(request, next, turn + 1) && (s.pushedBack ==> next.pushedBack) && (next.pushedBack && !s.pushedBack ==> turn == 1)
  {
    hide CallTool, ReadTurn, PlanFor, Take, PushBack, Permitted, NoneSpent, Spent;
    var decided := ReadTurn(raw);
    var used := CallTool(request, world, turn, decided.tool, decided.arguments);
    CallsArePermitted(request, world, turn, decided.tool, decided.arguments);
    MoreRan(request, s.ran, used.ran);
    TurnsContinueTwoWays(request, world, s, turn, raw);
  }

  lemma {:induction false} DecisionsAreCounted(request: Request, world: World, s: State, turn: nat, raw: Raw)
    requires Head(request, s, turn) && Take(request, world, s, turn, raw).Decided?
    ensures
      var step := Take(request, world, s, turn, raw);
      Counted(request, step.answer) && step.answer.turns == turn
  {
    hide CallTool, ReadTurn, PlanFor, Units, TrimReply, Trimmed, AtMost, Decline, PushBack, Permitted, NoneSpent,
         Request.WantsRetrieval, Written;
    var decided := ReadTurn(raw);
    CallsArePermitted(request, world, turn, decided.tool, decided.arguments);
  }

  /** The three ways a turn decides: words or silence, the old launch, or an execution that succeeded. */
  lemma {:induction false} TurnsDecideThreeWays(request: Request, world: World, s: State, turn: nat, raw: Raw)
    requires Take(request, world, s, turn, raw).Decided?
    ensures
      var decided, step := ReadTurn(raw), Take(request, world, s, turn, raw);
      var used := CallTool(request, world, turn, decided.tool, decided.arguments);
      && (step.answer.kind == Executed <==> step.answer.execution.Some?)
      && (if step.answer.execution.Some? && step.answer.execution.value.ByTool? then
            step.answer.execution == used.execution && step.ran == s.ran + used.ran
          else step.ran == s.ran && (step.answer.kind == Executed ==> request.execution))
  {
    hide CallTool, ReadTurn, PlanFor, TrimReply, Trimmed, AtMost, Decline, PushBack, Request.WantsRetrieval, Written;
    CallsArePermitted(request, world, turn, ReadTurn(raw).tool, ReadTurn(raw).arguments);
  }

  lemma DecisionsSpendAtMostOnce(request: Request, world: World, s: State, turn: nat, raw: Raw)
    requires Head(request, s, turn) && Take(request, world, s, turn, raw).Decided?
    ensures
      var step := Take(request, world, s, turn, raw);
      SpentAtMostOnce(request, step.answer, step.ran)
  {
    hide CallTool, ReadTurn, PlanFor, Take, PushBack, Permitted, NoneSpent, Spent;
    var decided := ReadTurn(raw);
    var used := CallTool(request, world, turn, decided.tool, decided.arguments);
    CallsArePermitted(request, world, turn, decided.tool, decided.arguments);
    MoreRan(request, s.ran, used.ran);
    TurnsDecideThreeWays(request, world, s, turn, raw);
  }

  lemma OneReplyPresents(request: Request, a: Answer)
    requires a.parts == if a.reply.None? then [] else [a.reply.value]
    requires a.reply.Some? ==> Fits(a.reply.value, request.ReplyChars())
    requires a.kind == Silent || a.kind == Executed ==> a.reply.None?
    requires a.kind == Replied ==> a.reply.Some?
    ensures Presented(request, a)
  {
    hide PlanFor, Fits;
    PlanAllowsAnAnswer(request);
  }

  lemma ThreadPresents(request: Request, a: Answer)
    requires a.kind == Replied && a.parts != [] && a.reply == Some(a.parts[0]) && |a.parts| <= request.Plan().maxParts
    requires forall p | p in a.parts :: Fits(p, request.ReplyChars())
    ensures Presented(request, a)
  {
    hide PlanFor, Fits;
  }

  lemma {:induction false} DecisionsArePresented(request: Request, world: World, s: State, turn: nat, raw: Raw)
    requires Take(request, world, s, turn, raw).Decided?
    ensures Presented(request, Take(request, world, s, turn, raw).answer)
  {
    hide CallTool, ReadTurn, PlanFor, Units, TrimReply, Trimmed, AtMost, Decline, PushBack, Request.WantsRetrieval,
         Written, Fits, Presented;
    var decided, chars, a := ReadTurn(raw), request.ReplyChars(), Take(request, world, s, turn, raw).answer;
    PlanAllowsAnAnswer(request);
    if a.kind == Replied && decided.legacyLaunch.None? {
      RepliesPresent(request, Written(decided));
      ThreadPresents(request, a);
    } else {
      DeclineIsSaid(chars);
      ReasonFits(decided.reason, chars);
      OneReplyPresents(request, a);
    }
  }

  lemma {:induction false} DecisionsAreSourced(request: Request, world: World, s: State, turn: nat, raw: Raw)
    requires Head(request, s, turn) && Take(request, world, s, turn, raw).Decided?
    ensures Sourced(request, Take(request, world, s, turn, raw).answer)
  {
    hide CallTool, ReadTurn, PlanFor, Units, TrimReply, Trimmed, AtMost, Decline, PushBack, Request.WantsRetrieval,
         Written, Permitted, NoneSpent;
  }

  /** One turn keeps the loop's invariant, continues only with a turn to spare, and answers soundly. */
  lemma TurnsKeepTheInvariant(request: Request, world: World, s: State, turn: nat, raw: Raw)
    requires Head(request, s, turn)
    ensures
      match Take(request, world, s, turn, raw)
      case Next(next) => Head(request, next, turn + 1) && (next.pushedBack && !s.pushedBack ==> turn == 1)
      case Decided(a, ran) => Sound(request, a, ran) && a.turns == turn
  {
    var step := Take(request, world, s, turn, raw);
    hide Take, Counted, SpentAtMostOnce, Presented, Sourced, Head, PushBack;
    if step.Next? {
      TurnsContinueInBudget(request, world, s, turn, raw);
    } else {
      DecisionsAreCounted(request, world, s, turn, raw);
      DecisionsSpendAtMostOnce(request, world, s, turn, raw);
      DecisionsArePresented(request, world, s, turn, raw);
      DecisionsAreSourced(request, world, s, turn, raw);
    }
  }

  // ----- whole runs --------------------------------------------------------------------------------------

  lemma StartsAtAHead(request: Request)
    ensures Head(request, START, 1)
  {
    PlanAllowsAnAnswer(request);
    hide PlanFor, PushBack;
  }

  /** Every answer is sound; a run cut short by the model has kept to its permit and spent nothing. */
  predicate Acceptable(request: Request, result: Result) {
    match result
    case Finished(a, ran) => Sound(request, a, ran)
    case Unreachable(ran) => Permitted(request, ran) && NoneSpent(ran)
  }

  lemma HeadsHaveSpentNothing(request: Request, s: State, turn: nat)
    requires Head(request, s, turn)
    ensures Acceptable(request, Unreachable(s.ran)) && turn <= request.Plan().maxTurns
  {
    hide PlanFor, PushBack;
  }

  lemma {:induction false} HeadsDecideSoundly(request: Request, world: World, s: State, turn: nat)
    requires Head(request, s, turn)
    ensures Acceptable(request, From(request, world, s, turn))
    decreases request.Plan().maxTurns - turn
  {
    hide Take, Sound, PlanFor, Head, Permitted, NoneSpent;
    HeadsHaveSpentNothing(request, s, turn);
    var response := world.model(turn, s.transcript);
    if response.Some? {
      TurnsKeepTheInvariant(request, world, s, turn, response.value);
      var step := Take(request, world, s, turn, response.value);
      if step.Next? {
        HeadsHaveSpentNothing(request, step.state, turn + 1);
        HeadsDecideSoundly(request, world, step.state, turn + 1);
      }
    }
  }

  /** Whatever the model says and whatever the tools do, the answer is counted, permitted, presentable and sourced. */
  lemma EveryAnswerIsSound(request: Request, world: World)
    ensures Acceptable(request, From(request, world, START, 1))
  {
    hide Acceptable, From, Head;
    StartsAtAHead(request);
    HeadsDecideSoundly(request, world, START, 1);
  }

  /** Without the permit nothing is executed, by any tool or in any answer. */
  lemma NoPermitNoExecution(request: Request, world: World)
    requires !request.execution
    ensures
      var r := From(request, world, START, 1);
      && (forall x | x in r.ran :: x.tool.kind == Read)
      && (r.Finished? ==> r.answer.kind != Executed && r.answer.execution.None?)
  {
    hide From, Counted, Presented, Sourced, NoneSpent, PlanFor;
    EveryAnswerIsSound(request, world);
  }

  /** A surface that names no limit gets parts of at most 240 units. */
  lemma {:induction false} PartsFitByDefault(request: Request, world: World)
    requires request.maxReplyChars.None?
    ensures
      var r := From(request, world, START, 1);
      r.Finished? ==> forall p | p in r.answer.parts :: 0 < |p| <= 240
  {
    hide From, Counted, SpentAtMostOnce, Sourced, NoneSpent, Permitted, PlanFor, Tidy;
    EveryAnswerIsSound(request, world);
  }

  /** The head that follows a head, if the model answered and the loop goes on. */
  function Following(request: Request, world: World, s: State, turn: nat): Option<State> {
    match world.model(turn, s.transcript)
    case None => None
    case Some(raw) =>
      var step := Take(request, world, s, turn, raw);
      if step.Next? then Some(step.state) else None
  }

  lemma FollowingIsAHead(request: Request, world: World, s: State, turn: nat)
    requires Head(request, s, turn)
    ensures
      var next := Following(request, world, s, turn);
      next.Some? ==> Head(request, next.value, turn + 1) && (s.pushedBack ==> next.value.pushedBack)
                     && (next.value.pushedBack && !s.pushedBack ==> turn == 1)
  {
    hide Take, Head;
    if Following(request, world, s, turn).Some? {
      TurnsContinueInBudget(request, world, s, turn, world.model(turn, s.transcript).value);
    }
  }

  /** The state at the head of a turn, if the loop gets there. */
  function HeadOf(request: Request, world: World, turn: nat): Option<State>
    requires turn >= 1
  {
    if turn == 1 then Some(START)
    else
      var before := HeadOf(request, world, turn - 1);
      if before.None? then None else Following(request, world, before.value, turn - 1)
  }

  /** Every turn reached is within the budget: the silence after the loop is never returned. */
  lemma {:induction false} TheLoopNeverFallsThrough(request: Request, world: World, turn: nat)
    requires turn >= 1
    ensures HeadOf(request, world, turn).Some? ==> turn <= request.Plan().maxTurns
    ensures HeadOf(request, world, turn).Some? ==> Head(request, HeadOf(request, world, turn).value, turn)
  {
    hide Following, PlanFor, Head, Acceptable;
    StartsAtAHead(request);
    if turn > 1 {
      TheLoopNeverFallsThrough(request, world, turn - 1);
      if HeadOf(request, world, turn - 1).Some? {
        FollowingIsAHead(request, world, HeadOf(request, world, turn - 1).value, turn - 1);
      }
    }
    if HeadOf(request, world, turn).Some? {
      HeadsHaveSpentNothing(request, HeadOf(request, world, turn).value, turn);
    }
  }

  /** Whether the model had been pushed back by the head of a turn, if the loop gets there. */
  predicate PushedBackBy(request: Request, world: World, turn: nat)
    requires turn >= 1
  {
    var head := HeadOf(request, world, turn);
    head.Some? && head.value.pushedBack
  }

  /** The model is pushed back after its first turn or not at all. */
  lemma {:induction false} PushedBackOnTheFirstTurn(request: Request, world: World, turn: nat)
    requires turn >= 2 && HeadOf(request, world, turn).Some?
    ensures HeadOf(request, world, 2).Some?
    ensures PushedBackBy(request, world, turn) == PushedBackBy(request, world, 2)
  {
    hide Following, Head, PlanFor;
    if turn > 2 {
      PushedBackOnTheFirstTurn(request, world, turn - 1);
      TheLoopNeverFallsThrough(request, world, turn - 1);
      FollowingIsAHead(request, world, HeadOf(request, world, turn - 1).value, turn - 1);
    }
  }

  /** The run ends without an answer only when the model was unreachable on a turn it reached. */
  lemma {:induction false} OnlyTheModelFails(request: Request, world: World, s: State, turn: nat)
    requires forall n, transcript :: world.model(n, transcript).Some?
    ensures From(request, world, s, turn).Finished?
    decreases request.Plan().maxTurns + 1 - turn
  {
    hide Take, PlanFor;
    if turn <= request.Plan().maxTurns {
      var step := Take(request, world, s, turn, world.model(turn, s.transcript).value);
      if step.Next? {
        OnlyTheModelFails(request, world, step.state, turn + 1);
      }
    }
  }

  lemma ToolTurnsWriteNothing(raw: Raw, chars: int)
    requires ReadTurn(raw).act == Tool && ReadTurn(raw).legacyLaunch.None?
    ensures Trimmed(Written(ReadTurn(raw)), chars) == []
  {
    var written: seq<Text> := [[]];
    hide Units;
    assert Written(ReadTurn(raw)) == written;
    hide ReadTurn;
    assert Tidied([]) == [];
    assert written[..0] == [];
  }

  /** On the last turn a model that still asks for a tool has written nothing, so the answer is silence. */
  lemma {:induction false} LastTurnToolsAreSilent(request: Request, world: World, s: State, raw: Raw)
    requires ReadTurn(raw).act == Tool && ReadTurn(raw).legacyLaunch.None?
    ensures
      var step := Take(request, world, s, request.Plan().maxTurns, raw);
      step.Decided? && step.answer.kind == Silent && step.ran == s.ran
  {
    hide ReadTurn, PlanFor, Units, Trimmed, CallTool, Request.WantsRetrieval, Written, TrimReply, Decline, PushBack;
    ToolTurnsWriteNothing(raw, request.ReplyChars());
  }
}
