/**
  * What a finished run says of itself: every entry of its transcript, every thought and the
  * answer, told from what the model said on each turn and what the tools returned.
  */
module AgentHistory {
  import opened Basics
  import opened ReplyText
  import opened AgentLoop

  // ----- one turn ------------------------------------------------------------------------------------

  /** What the model said on a turn, shown the entries of the turns before it. */
  function Heard(world: World, transcript: seq<Entry>, turn: nat): Option<Turn>
    requires 1 <= turn <= |transcript| + 1
  {
    var response := world.model(turn, transcript[..turn - 1]);
    if response.Some? then Some(ReadTurn(response.value)) else None
  }

  /** The tool a name stands for, when the model may run it: the first so named, one so named shown, and permitted. */
  predicate Runnable(request: Request, tool: ToolSpec, name: Text) {
    && (exists i | 0 <= i < |request.tools| ::
          request.tools[i] == tool && tool.name == name && forall j | 0 <= j < i :: request.tools[j].name != name)
    && (exists shown | shown in request.tools ::
          shown.name == name && shown.available && (shown.kind == Execute ==> request.execution))
    && (tool.kind == Execute ==> request.execution)
  }

  /** A tool is run when its arguments are valid, and its entry is then exactly what it returned. */
  predicate OutcomeRecorded(world: World, turn: nat, name: Text, tool: ToolSpec, raw: Text, entry: Entry, runs: seq<Ran>) {
    var read := world.readArguments(tool, raw);
    if read.Invalid? then entry == Entry(name, raw, false, read.message) && runs == []
    else
      var outcome := world.runTool(turn, tool, read.value);
      && entry == Entry(name, read.value, outcome.ok, outcome.text)
      && runs == [Ran(turn, tool, read.value, outcome.ok)]
  }

  /** A tool call's entry: the tool's own outcome if it could be run, and otherwise a refusal with nothing run. */
  ghost predicate CallRecorded(request: Request, world: World, turn: nat, said: Turn, entry: Entry, runs: seq<Ran>) {
    if said.tool.None? then
      !entry.ok && entry.arguments == said.arguments && runs == []
    else
      && (forall tool | tool in request.tools && Runnable(request, tool, said.tool.value) ::
            OutcomeRecorded(world, turn, said.tool.value, tool, said.arguments, entry, runs))
      && ((forall tool | tool in request.tools :: !Runnable(request, tool, said.tool.value)) ==>
            !entry.ok && entry.tool == said.tool.value && entry.arguments == said.arguments && runs == [])
  }

  /** More than a quick answer was asked for, and there is an available tool that only reads. */
  predicate WantsWork(request: Request) {
    !request.depth.Quick? && exists t | t in request.tools :: t.available && t.kind.Read?
  }

  lemma WorkIsRetrieval(request: Request)
    ensures WantsWork(request) <==> request.WantsRetrieval()
  {
    if WantsWork(request) {
      var t :| t in request.tools && t.available && t.kind.Read?;
      assert request.Ready(t);
    }
  }

  /** A turn that continued asked for a tool, or replied first of all to a question that wanted looking into. */
  ghost predicate Continued(request: Request, world: World, turn: nat, said: Turn, entry: Entry, runs: seq<Ran>) {
    && said.legacyLaunch.None? && turn < request.Plan().maxTurns
    && (if said.act == Reply then turn == 1 && WantsWork(request) && entry == PushBack() && runs == []
        else said.act == Tool && CallRecorded(request, world, turn, said, entry, runs))
  }

  /** The runs made on one turn. */
  function RunsOf(ran: seq<Ran>, turn: nat): seq<Ran> {
    if ran == [] then []
    else RunsOf(Front(ran), turn) + if Last(ran).turn == turn then [Last(ran)] else []
  }

  ghost predicate TurnRecorded(request: Request, world: World, transcript: seq<Entry>, ran: seq<Ran>, turn: nat)
    requires 1 <= turn <= |transcript|
  {
    var heard := Heard(world, transcript, turn);
    heard.Some? && Continued(request, world, turn, heard.value, transcript[turn - 1], RunsOf(ran, turn))
  }

  /** The first so many turns are recorded, and nothing else was run. */
  ghost predicate Recorded(request: Request, world: World, transcript: seq<Entry>, ran: seq<Ran>, turns: nat)
    requires turns <= |transcript|
  {
    && (forall turn | 1 <= turn <= turns :: TurnRecorded(request, world, transcript, ran, turn))
    && (forall r | r in ran :: 1 <= r.turn <= |transcript|)
  }

  function Thought(heard: Option<Turn>): seq<Text> {
    if heard.Some? && heard.value.thought != [] then [heard.value.thought] else []
  }

  /** The thoughts of the first so many turns, in order. */
  function Thoughts(world: World, transcript: seq<Entry>, turns: nat): seq<Text>
    requires turns <= |transcript| + 1
  {
    if turns == 0 then [] else Thoughts(world, transcript, turns - 1) + Thought(Heard(world, transcript, turns))
  }

  // ----- the answer --------------------------------------------------------------------------------------

  /** What the last turn makes of what the model said on it. */
  ghost predicate AnswersWith(request: Request, world: World, said: Turn, a: Answer, runs: seq<Ran>) {
    var chars := request.ReplyChars();
    if said.legacyLaunch.Some? then
      && runs == []
      && (if request.execution then a.kind == Executed && a.execution == Some(ByLaunch(said.legacyLaunch.value))
          else a.kind == Replied && a.reply == TrimReply(Some(Decline()), chars))
    else
      if said.act == Silence then a.kind == Silent && runs == []
      else if said.act == Refuse then
        a.kind == Refusal && a.reason == said.reason && a.reply == TrimReply(said.reason, chars) && runs == []
      else if said.act == Reply then
        var parts := AtMost(Trimmed(said.parts, chars), request.Plan().maxParts);
        && runs == [] && a.parts == parts && a.kind == (if parts == [] then Silent else Replied)
        && (a.turns == 1 && request.Plan().maxTurns >= 2 ==> !WantsWork(request))
      else
        if a.turns == request.Plan().maxTurns then a.kind == Silent && runs == []
        else
          && 1 <= |a.transcript| == a.turns && CallRecorded(request, world, a.turns, said, Last(a.transcript), runs)
          && |runs| == 1 && runs[0].tool.kind == Execute && runs[0].ok && a.kind == Executed
          && a.execution == Some(ByTool(runs[0].tool.name, runs[0].arguments,
                                        world.runTool(a.turns, runs[0].tool, runs[0].arguments).detail))
  }

  /** Everything a finished run says is what was said and done. */
  ghost predicate Truthful(request: Request, world: World, a: Answer, ran: seq<Ran>) {
    && 1 <= a.turns <= |a.transcript| + 1
    && Recorded(request, world, a.transcript, ran, a.turns - 1)
    && a.thoughts == Thoughts(world, a.transcript, a.turns)
    && var heard := Heard(world, a.transcript, a.turns);
       heard.Some? && AnswersWith(request, world, heard.value, a, RunsOf(ran, a.turns))
  }

  // ----- a call does what it records -----------------------------------------------------------------------

  lemma {:induction false} GetIsFirst(tools: seq<ToolSpec>, name: Text)
    ensures Get(tools, name).Some? ==>
              exists i | 0 <= i < |tools| :: tools[i] == Get(tools, name).value && forall j | 0 <= j < i :: tools[j].name != name
    ensures Get(tools, name).None? ==> forall i | 0 <= i < |tools| :: tools[i].name != name
  {
    if tools != [] && tools[0].name != name {
      GetIsFirst(tools[1..], name);
      assert forall i | 0 < i < |tools| :: tools[i] == tools[1..][i - 1];
      if Get(tools, name).Some? {
        var i :| 0 <= i < |tools[1..]| && tools[1..][i] == Get(tools, name).value
                 && forall j | 0 <= j < i :: tools[1..][j].name != name;
        assert tools[i + 1] == Get(tools, name).value;
      }
    }
  }

  /** The tool found by name is the only one that can be runnable under it. */
  lemma {:induction false} RunnableIsGot(request: Request, tool: ToolSpec, name: Text)
    ensures Runnable(request, tool, name) <==>
              && Get(request.tools, name) == Some(tool) && (tool.kind == Execute ==> request.execution)
              && exists shown | shown in request.tools :: request.Ready(shown) && shown.name == name
  {
    GetIsFirst(request.tools, name);
    if Runnable(request, tool, name) {
      var i :| 0 <= i < |request.tools| && request.tools[i] == tool && tool.name == name
               && forall j | 0 <= j < i :: request.tools[j].name != name;
      var k :| 0 <= k < |request.tools| && Some(request.tools[k]) == Get(request.tools, name)
               && forall j | 0 <= j < k :: request.tools[j].name != name;
      assert i == k;
      var shown :| shown in request.tools && shown.name == name && shown.available
                   && (shown.kind == Execute ==> request.execution);
      assert request.Ready(shown);
    }
  }

  lemma {:induction false} CallsRecord(request: Request, world: World, turn: nat, said: Turn)
    ensures
      var used := CallTool(request, world, turn, said.tool, said.arguments);
      CallRecorded(request, world, turn, said, used.entry, used.ran)
      && (used.execution.Some? ==>
            && |used.ran| == 1 && used.ran[0].tool.kind == Execute && used.ran[0].ok
            && used.execution == Some(ByTool(used.ran[0].tool.name, used.ran[0].arguments,
                                             world.runTool(turn, used.ran[0].tool, used.ran[0].arguments).detail)))
      && (forall r | r in used.ran :: r.turn == turn)
  {
    hide Units, Runnable;
    if said.tool.Some? {
      forall tool ensures Runnable(request, tool, said.tool.value) <==>
              && Get(request.tools, said.tool.value) == Some(tool) && (tool.kind == Execute ==> request.execution)
              && exists shown | shown in request.tools :: request.Ready(shown) && shown.name == said.tool.value
      {
        RunnableIsGot(request, tool, said.tool.value);
      }
    }
  }

  // ----- histories grow ------------------------------------------------------------------------------------

  lemma {:induction false} RunsOfMore(ran: seq<Ran>, more: seq<Ran>, turn: nat)
    requires |more| <= 1
    ensures RunsOf(ran + more, turn) == RunsOf(ran, turn) + RunsOf(more, turn)
  {
    if more == [] {
      assert ran + more == ran;
    } else {
      assert Front(ran + more) == ran && Last(ran + more) == more[0] && Front(more) == [];
    }
  }

  lemma {:induction false} NoRunsYet(ran: seq<Ran>, turn: nat)
    requires forall r | r in ran :: r.turn != turn
    ensures RunsOf(ran, turn) == []
  {
    if ran != [] {
      assert Last(ran) in ran;
      NoRunsYet(Front(ran), turn);
    }
  }

  lemma {:induction false} OnlyRuns(more: seq<Ran>, turn: nat)
    requires |more| <= 1 && forall r | r in more :: r.turn == turn
    ensures RunsOf(more, turn) == more
    ensures forall t: nat | t != turn :: RunsOf(more, t) == []
  {
    if more != [] {
      assert more[0] in more && Front(more) == [];
    }
  }

  /** What was heard does not depend on what the transcript says later. */
  lemma HeardStays(world: World, transcript: seq<Entry>, entry: Entry, turn: nat)
    requires 1 <= turn <= |transcript| + 1
    ensures Heard(world, transcript + [entry], turn) == Heard(world, transcript, turn)
  {
    assert (transcript + [entry])[..turn - 1] == transcript[..turn - 1];
  }

  lemma {:induction false} ThoughtsStay(world: World, transcript: seq<Entry>, entry: Entry, turns: nat)
    requires turns <= |transcript| + 1
    ensures Thoughts(world, transcript + [entry], turns) == Thoughts(world, transcript, turns)
  {
    hide Heard;
    if turns > 0 {
      ThoughtsStay(world, transcript, entry, turns - 1);
      HeardStays(world, transcript, entry, turns);
    }
  }

  /** Nothing recorded is unsaid by an entry more, and the runs of its turn. */
  lemma {:induction false} StaysRecorded(request: Request, world: World, transcript: seq<Entry>, ran: seq<Ran>, entry: Entry,
                                         more: seq<Ran>)
    requires Recorded(request, world, transcript, ran, |transcript|) && |more| <= 1
    requires forall r | r in more :: r.turn == |transcript| + 1
    ensures Recorded(request, world, transcript + [entry], ran + more, |transcript|)
    ensures RunsOf(ran + more, |transcript| + 1) == more
  {
    hide Continued, Heard, RunsOf;
    var n := |transcript| + 1;
    OnlyRuns(more, n);
    NoRunsYet(ran, n);
    RunsOfMore(ran, more, n);
    forall turn | 1 <= turn < n ensures TurnRecorded(request, world, transcript + [entry], ran + more, turn) {
      assert TurnRecorded(request, world, transcript, ran, turn);
      RunsOfMore(ran, more, turn);
      assert RunsOf(ran + more, turn) == RunsOf(ran, turn) + [] == RunsOf(ran, turn);
      assert (transcript + [entry])[turn - 1] == transcript[turn - 1];
      HeardStays(world, transcript, entry, turn);
    }
  }

  // ----- the loop keeps its history ---------------------------------------------------------------------------

  ghost predicate HeadTold(request: Request, world: World, s: State, turn: nat) {
    && Head(request, s, turn)
    && Recorded(request, world, s.transcript, s.ran, turn - 1)
    && s.thoughts == Thoughts(world, s.transcript, turn - 1)
  }

  /** A turn that continues adds one entry that tells what it did. */
  lemma {:induction false} ContinuingTells(request: Request, world: World, s: State, turn: nat, raw: Raw)
      returns (entry: Entry, more: seq<Ran>)
    requires Head(request, s, turn) && Take(request, world, s, turn, raw).Next?
    ensures
      var next := Take(request, world, s, turn, raw).state;
      && next.transcript == s.transcript + [entry] && next.ran == s.ran + more
      && next.thoughts == s.thoughts + Thought(Some(ReadTurn(raw)))
    ensures |more| <= 1 && forall r | r in more :: r.turn == turn
    ensures Continued(request, world, turn, ReadTurn(raw), entry, more)
  {
    hide CallTool, ReadTurn, PlanFor, TrimReply, Trimmed, AtMost, Decline, PushBack, Written, Units, CallRecorded, Permitted, NoneSpent;
    hide Request.WantsRetrieval, WantsWork;
    WorkIsRetrieval(request);
    var said := ReadTurn(raw);
    if said.act == Reply {
      entry, more := PushBack(), [];
    } else {
      var used := CallTool(request, world, turn, said.tool, said.arguments);
      CallsRecord(request, world, turn, said);
      CallsArePermitted(request, world, turn, said.tool, said.arguments);
      entry, more := used.entry, used.ran;
    }
  }

  lemma {:induction false} HeadsStayTold(request: Request, world: World, s: State, turn: nat)
    requires HeadTold(request, world, s, turn)
    ensures
      var next := Following(request, world, s, turn);
      next.Some? ==> HeadTold(request, world, next.value, turn + 1)
  {
    hide Take, Head, Recorded, Continued, ReadTurn, Heard, RunsOf, CallTool, PlanFor, Units;
    FollowingIsAHead(request, world, s, turn);
    HeadsHaveEntries(request, s, turn);
    if Following(request, world, s, turn).Some? {
      var raw := world.model(turn, s.transcript).value;
      var entry, more := ContinuingTells(request, world, s, turn, raw);
      StaysRecorded(request, world, s.transcript, s.ran, entry, more);
      ThoughtsStay(world, s.transcript, entry, turn);
      HeardNow(world, s.transcript, turn, raw);
      HeardStays(world, s.transcript, entry, turn);
      OneMoreRecorded(request, world, s.transcript, s.ran, entry, more);
    }
  }

  lemma HeadsHaveEntries(request: Request, s: State, turn: nat)
    requires Head(request, s, turn)
    ensures turn >= 1 && |s.transcript| == turn - 1
  {
  }

  lemma HeardNow(world: World, transcript: seq<Entry>, turn: nat, raw: Raw)
    requires turn == |transcript| + 1 && world.model(turn, transcript) == Some(raw)
    ensures Heard(world, transcript, turn) == Some(ReadTurn(raw))
  {
    hide ReadTurn;
    assert transcript[..turn - 1] == transcript;
  }

  lemma {:induction false} OneMoreRecorded(request: Request, world: World, transcript: seq<Entry>, ran: seq<Ran>, entry: Entry,
                                           more: seq<Ran>)
    requires Recorded(request, world, transcript + [entry], ran + more, |transcript|)
    requires RunsOf(ran + more, |transcript| + 1) == more
    requires Heard(world, transcript + [entry], |transcript| + 1).Some?
    requires Continued(request, world, |transcript| + 1, Heard(world, transcript + [entry], |transcript| + 1).value, entry, more)
    ensures Recorded(request, world, transcript + [entry], ran + more, |transcript| + 1)
  {
    hide Continued, Heard, RunsOf;
  }

  // ----- and its answer is true --------------------------------------------------------------------------------

  /** A reply that says nothing has no part that says something. */
  lemma NothingSaid(raw: Raw, chars: int)
    requires ReadTurn(raw).act == Reply
    ensures Trimmed(Written(ReadTurn(raw)), chars) == Trimmed(ReadTurn(raw).parts, chars)
  {
    TurnsAreWellFormed(raw);
    hide ReadTurn;
    if ReadTurn(raw).parts == [] {
      var written: seq<Text> := [[]];
      assert Written(ReadTurn(raw)) == written;
      assert Tidied([]) == [];
      assert written[..0] == [];
    }
  }

  /** What one turn that decides leaves behind: at most one entry and one run, told as any other. */
  lemma {:induction false} DecidingTells(request: Request, world: World, s: State, turn: nat, raw: Raw)
      returns (entries: seq<Entry>, more: seq<Ran>)
    requires Head(request, s, turn) && Take(request, world, s, turn, raw).Decided?
    ensures
      var step := Take(request, world, s, turn, raw);
      && step.answer.turns == turn && step.answer.transcript == s.transcript + entries && step.ran == s.ran + more
      && step.answer.thoughts == s.thoughts + Thought(Some(ReadTurn(raw)))
    ensures |entries| <= 1 && |more| <= 1 && forall r | r in more :: r.turn == turn
    ensures entries == [] ==> more == []
    ensures AnswersWith(request, world, ReadTurn(raw), Take(request, world, s, turn, raw).answer, more)
  {
    hide CallTool, ReadTurn, PlanFor, TrimReply, Trimmed, AtMost, Decline, PushBack, Written, Units, CallRecorded, Permitted, NoneSpent;
    hide Request.WantsRetrieval, WantsWork;
    WorkIsRetrieval(request);
    var said, a := ReadTurn(raw), Take(request, world, s, turn, raw).answer;
    PlanAllowsAnAnswer(request);
    var used := CallTool(request, world, turn, said.tool, said.arguments);
    CallsRecord(request, world, turn, said);
    if said.act == Reply {
      NothingSaid(raw, request.ReplyChars());
    } else if said.act == Tool && said.legacyLaunch.None? && turn == request.Plan().maxTurns {
      LastTurnToolsAreSilent(request, world, s, raw);
    }
    if |a.transcript| == turn {
      entries, more := [used.entry], used.ran;
    } else {
      entries, more := [], [];
    }
  }

  lemma NoLaterRuns(request: Request, world: World, transcript: seq<Entry>, ran: seq<Ran>)
    requires Recorded(request, world, transcript, ran, |transcript|)
    ensures RunsOf(ran, |transcript| + 1) == []
  {
    NoRunsYet(ran, |transcript| + 1);
  }

  lemma {:induction false} QuietAnswerIsTruthful(request: Request, world: World, a: Answer, ran: seq<Ran>)
    requires Recorded(request, world, a.transcript, ran, |a.transcript|) && a.turns == |a.transcript| + 1
    requires Heard(world, a.transcript, a.turns).Some?
    requires a.thoughts == Thoughts(world, a.transcript, a.turns - 1) + Thought(Heard(world, a.transcript, a.turns))
    requires AnswersWith(request, world, Heard(world, a.transcript, a.turns).value, a, [])
    ensures Truthful(request, world, a, ran)
  {
    hide Recorded, AnswersWith, Heard;
    NoLaterRuns(request, world, a.transcript, ran);
  }

  lemma {:induction false} ExecutedAnswerIsTruthful(request: Request, world: World, a: Answer, transcript: seq<Entry>,
                                                    ran: seq<Ran>, entry: Entry, more: seq<Ran>)
    requires Recorded(request, world, transcript, ran, |transcript|) && a.turns == |transcript| + 1
    requires a.transcript == transcript + [entry] && |more| <= 1 && forall r | r in more :: r.turn == a.turns
    requires Heard(world, transcript, a.turns).Some?
    requires a.thoughts == Thoughts(world, transcript, a.turns - 1) + Thought(Heard(world, transcript, a.turns))
    requires AnswersWith(request, world, Heard(world, transcript, a.turns).value, a, more)
    ensures Truthful(request, world, a, ran + more)
  {
    hide Recorded, AnswersWith, Heard, Thought;
    StaysRecorded(request, world, transcript, ran, entry, more);
    ThoughtsStay(world, transcript, entry, a.turns - 1);
    HeardStays(world, transcript, entry, a.turns);
  }

  lemma {:induction false} AnswersAreTruthful(request: Request, world: World, s: State, turn: nat)
    requires HeadTold(request, world, s, turn) && world.model(turn, s.transcript).Some?
    requires Take(request, world, s, turn, world.model(turn, s.transcript).value).Decided?
    ensures
      var step := Take(request, world, s, turn, world.model(turn, s.transcript).value);
      Truthful(request, world, step.answer, step.ran)
  {
    hide Take, Head, Recorded, AnswersWith, Truthful, Heard, Thought, Thoughts, ReadTurn;
    var raw := world.model(turn, s.transcript).value;
    var a := Take(request, world, s, turn, raw).answer;
    HeadsHaveEntries(request, s, turn);
    var entries, more := DecidingTells(request, world, s, turn, raw);
    HeardNow(world, s.transcript, turn, raw);
    if entries == [] {
      assert s.transcript + entries == s.transcript && s.ran + more == s.ran;
      QuietAnswerIsTruthful(request, world, a, s.ran);
    } else {
      assert entries == [entries[0]];
      ExecutedAnswerIsTruthful(request, world, a, s.transcript, s.ran, entries[0], more);
    }
  }

  lemma {:induction false} HeadsEndTruthfully(request: Request, world: World, s: State, turn: nat)
    requires HeadTold(request, world, s, turn)
    ensures
      var result := From(request, world, s, turn);
      result.Finished? ==> Truthful(request, world, result.answer, result.ran)
    decreases request.Plan().maxTurns - turn
  {
    hide Take, HeadTold, Truthful, PlanFor;
    HeadsAreInBudget(request, world, s, turn);
    var response := world.model(turn, s.transcript);
    if response.Some? {
      var step := Take(request, world, s, turn, response.value);
      if step.Next? {
        HeadsStayTold(request, world, s, turn);
        HeadsAreInBudget(request, world, step.state, turn + 1);
        HeadsEndTruthfully(request, world, step.state, turn + 1);
      } else {
        AnswersAreTruthful(request, world, s, turn);
      }
    }
  }

  lemma HeadsAreInBudget(request: Request, world: World, s: State, turn: nat)
    requires HeadTold(request, world, s, turn)
    ensures 1 <= turn <= request.Plan().maxTurns
  {
    hide PlanFor, Recorded, PushBack, Thoughts;
  }

  lemma StartsTold(request: Request, world: World)
    ensures HeadTold(request, world, START, 1)
  {
    hide Head;
    StartsAtAHead(request);
  }

  /**
    * For every model and every tool, a finished run tells the truth: each entry is the push-back, a
    * refusal with nothing run, or exactly what the tool the model named returned for its arguments; a
    * named tool that may run with valid arguments is run; the thoughts are the model's; and the answer
    * is what the last turn said, or the execution its tool reported.
    */
  lemma {:induction false} EveryRunIsTruthful(request: Request, world: World)
    ensures
      var result := From(request, world, START, 1);
      result.Finished? ==> Truthful(request, world, result.answer, result.ran)
  {
    hide HeadTold, From, Truthful;
    StartsTold(request, world);
    HeadsEndTruthfully(request, world, START, 1);
  }
}
