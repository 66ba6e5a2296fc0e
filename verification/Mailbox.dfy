/**
 The two-file mailbox between the MCP server, which issues commands, and the
 window's watcher, which acts on each and answers it: a state machine over the
 steps of both processes.
 */
module Mailbox {
  import opened Wrappers

  const U64_MAX: nat := 0xFFFF_FFFF_FFFF_FFFF

  datatype UiCommand = SetEditorSql(sql: string) | RunQuery | OpenAiPanel | OpenAiSettings

  datatype CommandFile = CommandFile(seqNo: nat, command: Option<UiCommand>)

  /** `of` is no field of the file: it records which command's outcome was written. */
  datatype ResultFile = ResultFile(seqNo: nat, ok: bool, text: string, of: Option<UiCommand>)

  const DEFAULT_COMMAND: CommandFile := CommandFile(0, None)
  const DEFAULT_RESULT: ResultFile := ResultFile(0, false, "", None)

  /** The highest number either file has seen, plus one, saturating. */
  function NextSeq(commandSeq: nat, resultSeq: nat): (r: nat)
    ensures commandSeq < U64_MAX && resultSeq < U64_MAX ==> r > commandSeq && r > resultSeq
    ensures commandSeq <= U64_MAX && resultSeq <= U64_MAX ==> r >= commandSeq && r >= resultSeq
  {
    var top := if commandSeq > resultSeq then commandSeq else resultSeq;
    if top < U64_MAX then top + 1 else U64_MAX
  }

  function PendingCommand(file: CommandFile, lastActed: nat): Option<UiCommand> {
    if file.seqNo > lastActed then file.command else None
  }

  predicate Answers(result: ResultFile, seqNo: nat) {
    result.seqNo == seqNo
  }

  /** A file that is missing or cannot be read reads as the default. */
  function ReadCommand(file: Option<CommandFile>, readable: bool): CommandFile {
    if readable && file.Some? then file.value else DEFAULT_COMMAND
  }

  function ReadResult(file: Option<ResultFile>, readable: bool): ResultFile {
    if readable && file.Some? then file.value else DEFAULT_RESULT
  }

  // -- the state machine --------------------------------------------------------------------

  datatype Issuer = Idle | Waiting(seqNo: nat, command: UiCommand)

  /** A command handed to the frontend and not yet answered. */
  datatype Emitted = Emitted(seqNo: nat, command: UiCommand)

  datatype Accepted = Accepted(seqNo: nat, command: UiCommand, answer: ResultFile)

  /** The frontend's word on a command it carried out. */
  datatype Reported = Reported(done: Emitted, ok: bool, text: string)

  const UNREACHABLE: string := "the dbboard window could not be reached"

  /**
   The two files, the two processes, and a history: what was issued as what,
   acted on, reported by the frontend, not handed to it, and accepted.
   */
  datatype Box = Box(
    commandFile: Option<CommandFile>, resultFile: Option<ResultFile>,
    issuer: Issuer, lastActed: nat, emitted: set<Emitted>,
    base: nat, top: nat, issued: map<nat, UiCommand>, acted: seq<nat>, reported: set<Reported>, unreached: set<nat>,
    accepted: seq<Accepted>)

  datatype Event =
    | Issue(command: UiCommand, commandReadable: bool, resultReadable: bool, saved: bool)
    | PollAnswer(readable: bool)
    | GiveUp
    | Watch(readable: bool, reachable: bool, saved: bool)
    | Report(done: Emitted, ok: bool, text: string, saved: bool)
    | RestartWindow(readable: bool)
    | DeleteCommandFile

  function IssueSeq(b: Box, commandReadable: bool, resultReadable: bool): nat {
    NextSeq(ReadCommand(b.commandFile, commandReadable).seqNo, ReadResult(b.resultFile, resultReadable).seqNo)
  }

  function Apply(b: Box, e: Event): Box {
    match e
    case Issue(command, commandReadable, resultReadable, saved) =>
      if !saved then b
      else
        var n := IssueSeq(b, commandReadable, resultReadable);
        b.(commandFile := Some(CommandFile(n, Some(command))), issuer := Waiting(n, command),
           top := if n > b.top then n else b.top, issued := b.issued[n := command])
    case PollAnswer(readable) =>
      var result := ReadResult(b.resultFile, readable);
      if b.issuer.Waiting? && Answers(result, b.issuer.seqNo) then
        b.(issuer := Idle, accepted := b.accepted + [Accepted(b.issuer.seqNo, b.issuer.command, result)])
      else b
    case GiveUp => b.(issuer := Idle)
    case Watch(readable, reachable, saved) =>
      var file := ReadCommand(b.commandFile, readable);
      var pending := PendingCommand(file, b.lastActed);
      if pending.None? then b
      else
        var b' := b.(lastActed := file.seqNo, acted := b.acted + [file.seqNo]);
        if reachable then b'.(emitted := b.emitted + {Emitted(file.seqNo, pending.value)})
        else
          b'.(resultFile := if saved then Some(ResultFile(file.seqNo, false, UNREACHABLE, pending)) else b.resultFile,
              unreached := b.unreached + {file.seqNo})
    case Report(done, ok, text, saved) =>
      var b' := b.(emitted := b.emitted - {done}, reported := b.reported + {Reported(done, ok, text)});
      if saved then b'.(resultFile := Some(ResultFile(done.seqNo, ok, text, Some(done.command)))) else b'
    case RestartWindow(readable) => b.(lastActed := ReadCommand(b.commandFile, readable).seqNo, emitted := {})
    case DeleteCommandFile => b.(commandFile := None)
  }

  /** One of the two files, as far as it can be read, shows the last number; or none was ever given out. */
  predicate LastNumberIsKnown(b: Box, commandReadable: bool, resultReadable: bool) {
    || b.top == 0
    || (b.commandFile.Some? && commandReadable)
    || (resultReadable && ReadResult(b.resultFile, true).seqNo == b.top)
  }

  /** A restarting window finds the last number, or has nothing old to find. */
  predicate RestartIsHarmless(b: Box, readable: bool) {
    || readable || b.commandFile.None? || b.commandFile.value.command.None? || b.top == 0
    || (b.top !in b.acted && b.top != b.base)
  }

  /**
   The steps the exchange is meant for. One command is awaited at a time, and
   numbers stay below the largest. The server can tell the last number from the
   files, and a window adopts it when it restarts. Either file may be unreadable
   at any other time, and the command file may be deleted whenever.
   */
  predicate Allowed(b: Box, e: Event) {
    match e
    case Issue(_, commandReadable, resultReadable, _) =>
      b.issuer.Idle? && b.top + 1 < U64_MAX && LastNumberIsKnown(b, commandReadable, resultReadable)
    case Report(done, _, _, _) => done in b.emitted
    case RestartWindow(readable) => RestartIsHarmless(b, readable)
    case _ => true
  }

  /**
   Nothing issued yet; leftovers of an earlier session may lie around, the newer number
   in the command file if it is there.
   */
  ghost predicate Init(b: Box) {
    && b.issuer == Idle && b.emitted == {} && b.issued == map[] && b.acted == [] && b.accepted == []
    && b.reported == {} && b.unreached == {}
    && b.base == b.top && b.lastActed == ReadCommand(b.commandFile, true).seqNo
    && (b.commandFile.Some? ==> b.top == b.commandFile.value.seqNo >= ReadResult(b.resultFile, true).seqNo)
    && (b.commandFile.None? ==> b.top == ReadResult(b.resultFile, true).seqNo)
  }

  ghost predicate Increasing(s: seq<nat>) {
    forall i, j | 0 <= i < j < |s| :: s[i] < s[j]
  }

  /** `s` was issued, as this command. */
  predicate IssuedAs(b: Box, s: nat, c: UiCommand) {
    s in b.issued && b.issued[s] == c
  }

  /** The answer is what the frontend reported of this command, or says that it was never handed to it. */
  predicate Vouched(b: Box, c: UiCommand, answer: ResultFile) {
    || Reported(Emitted(answer.seqNo, c), answer.ok, answer.text) in b.reported
    || (answer.seqNo in b.unreached && !answer.ok && answer.text == UNREACHABLE)
  }

  ghost predicate Numbered(b: Box) {
    && b.base <= b.top && b.lastActed <= b.top
    && (forall s | s in b.issued :: b.base < s <= b.top)
    && ReadResult(b.resultFile, true).seqNo <= b.top
    && (b.commandFile.Some? ==> b.commandFile.value.seqNo == b.top)
  }

  ghost predicate Matched(b: Box) {
    && (b.commandFile.Some? && b.top > b.base ==>
          b.commandFile.value.command.Some? && IssuedAs(b, b.top, b.commandFile.value.command.value))
    && (b.issuer.Waiting? ==> IssuedAs(b, b.issuer.seqNo, b.issuer.command))
    && (forall x | x in b.emitted :: IssuedAs(b, x.seqNo, x.command) && x.seqNo in b.acted)
    && (b.resultFile.Some? && b.resultFile.value.seqNo > b.base ==>
          b.resultFile.value.seqNo in b.acted && b.resultFile.value.of.Some?
          && IssuedAs(b, b.resultFile.value.seqNo, b.resultFile.value.of.value)
          && Vouched(b, b.resultFile.value.of.value, b.resultFile.value))
  }

  ghost predicate ActedOnce(b: Box) {
    && Increasing(b.acted) && (forall s | s in b.acted :: b.base < s <= b.top)
    && (b.commandFile.Some? && b.commandFile.value.command.Some? && (b.top in b.acted || b.top == b.base) ==>
          b.lastActed >= b.top)
  }

  /** The answer taken for a number is the outcome of the command issued under it, which was acted on. */
  ghost predicate Truthful(b: Box) {
    forall a | a in b.accepted ::
      && IssuedAs(b, a.seqNo, a.command) && a.seqNo in b.acted
      && a.answer.seqNo == a.seqNo && a.answer.of == Some(a.command) && Vouched(b, a.command, a.answer)
  }

  ghost predicate Inv(b: Box) {
    Numbered(b) && Matched(b) && ActedOnce(b) && Truthful(b)
  }

  /** The server picks a number nobody has used if and only if it can tell the last one. */
  lemma NumberIsFreshIffLastIsKnown(b: Box, commandReadable: bool, resultReadable: bool)
    requires Numbered(b) && b.top < U64_MAX
    ensures IssueSeq(b, commandReadable, resultReadable) > b.top <==>
            LastNumberIsKnown(b, commandReadable, resultReadable)
    ensures LastNumberIsKnown(b, commandReadable, resultReadable) ==>
              IssueSeq(b, commandReadable, resultReadable) == b.top + 1
  {
  }

  lemma RestartKeepsInvIffHarmless(b: Box, readable: bool)
    requires Inv(b)
    ensures Inv(Apply(b, RestartWindow(readable))) <==> RestartIsHarmless(b, readable)
  {
  }

  /** One conjunct of the invariant at a time. */
  lemma StepKeepsNumbered(b: Box, e: Event)
    requires Numbered(b) && Matched(b) && Allowed(b, e)
    ensures Numbered(Apply(b, e))
  {
    if e.Issue? {
      NumberIsFreshIffLastIsKnown(b, e.commandReadable, e.resultReadable);
    }
  }

  lemma StepKeepsMatched(b: Box, e: Event)
    requires Inv(b) && Allowed(b, e)
    ensures Matched(Apply(b, e))
  {
    match e
    case Issue(_, commandReadable, resultReadable, _) => NumberIsFreshIffLastIsKnown(b, commandReadable,
        resultReadable);
    case Watch(readable, _, _) =>
      if PendingCommand(ReadCommand(b.commandFile, readable), b.lastActed).Some? {
        WatchFindsTheLast(b, readable);
      }
    case _ =>
  }

  lemma StepKeepsActedOnce(b: Box, e: Event)
    requires Inv(b) && Allowed(b, e)
    ensures ActedOnce(Apply(b, e)) && b.acted <= Apply(b, e).acted
  {
    match e
    case Issue(_, commandReadable, resultReadable, _) => NumberIsFreshIffLastIsKnown(b, commandReadable,
        resultReadable);
    case Watch(readable, reachable, saved) => WatchActsOnce(b, readable, reachable, saved);
    case _ =>
  }

  lemma StepKeepsTruthful(b: Box, e: Event)
    requires Inv(b) && Allowed(b, e)
    ensures Truthful(Apply(b, e)) && b.accepted <= Apply(b, e).accepted
  {
    match e
    case Issue(_, commandReadable, resultReadable, _) => NumberIsFreshIffLastIsKnown(b, commandReadable,
        resultReadable);
    case PollAnswer(readable) => AcceptedIsTruthful(b, readable);
    case _ =>
  }

  lemma AcceptedIsTruthful(b: Box, readable: bool)
    requires Inv(b)
    ensures Truthful(Apply(b, PollAnswer(readable)))
  {
    var result := ReadResult(b.resultFile, readable);
    if b.issuer.Waiting? && Answers(result, b.issuer.seqNo) {
      assert b.issuer.seqNo > b.base;
      assert result.of == Some(b.issuer.command);
    }
  }

  /** What a window acts on is the last command issued, for the first time. */
  lemma WatchFindsTheLast(b: Box, readable: bool)
    requires Inv(b) && PendingCommand(ReadCommand(b.commandFile, readable), b.lastActed).Some?
    ensures var file := ReadCommand(b.commandFile, readable);
            && b.commandFile == Some(file) && file.seqNo == b.top && b.top !in b.acted && b.top > b.base
            && IssuedAs(b, b.top, file.command.value)
  {
  }

  lemma WatchActsOnce(b: Box, readable: bool, reachable: bool, saved: bool)
    requires Inv(b)
    ensures var b' := Apply(b, Watch(readable, reachable, saved)); ActedOnce(b') && b.acted <= b'.acted
  {
    var b' := Apply(b, Watch(readable, reachable, saved));
    if PendingCommand(ReadCommand(b.commandFile, readable), b.lastActed).Some? {
      WatchFindsTheLast(b, readable);
      assert b'.acted == b.acted + [b.top];
      forall i | 0 <= i < |b.acted| ensures b.acted[i] < b.top {
        assert b.acted[i] in b.acted;
      }
      assert forall s :: s in b'.acted <==> s in b.acted || s == b.top;
    }
  }

  lemma StepKeepsInv(b: Box, e: Event)
    requires Inv(b) && Allowed(b, e)
    ensures Inv(Apply(b, e))
    ensures b.acted <= Apply(b, e).acted && b.accepted <= Apply(b, e).accepted
  {
    StepKeepsNumbered(b, e);
    StepKeepsMatched(b, e);
    StepKeepsActedOnce(b, e);
    StepKeepsTruthful(b, e);
  }

  ghost predicate AllowedRun(b: Box, events: seq<Event>)
    decreases |events|
  {
    events == [] || (Allowed(b, events[0]) && AllowedRun(Apply(b, events[0]), events[1..]))
  }

  function RunAll(b: Box, events: seq<Event>): Box
    decreases |events|
  {
    if events == [] then b else RunAll(Apply(b, events[0]), events[1..])
  }

  lemma {:induction false} RunKeepsInv(b: Box, events: seq<Event>)
    requires Inv(b) && AllowedRun(b, events)
    ensures Inv(RunAll(b, events))
    decreases |events|
  {
    if events != [] {
      StepKeepsInv(b, events[0]);
      RunKeepsInv(Apply(b, events[0]), events[1..]);
    }
  }

  // -- what the history records ------------------------------------------------------------------

  /** The frontend reported this, in some step of the run. */
  ghost predicate ReportedIn(events: seq<Event>, r: Reported) {
    exists e | e in events :: e.Report? && e.done == r.done && e.ok == r.ok && e.text == r.text
  }

  /** The `i`th step of the run acts on command `n`, and finds the window out of reach. */
  ghost predicate UnreachedAt(b: Box, events: seq<Event>, i: nat, n: nat)
    requires i < |events|
  {
    var box := RunAll(b, events[..i]);
    && events[i].Watch? && !events[i].reachable
    && var file := ReadCommand(box.commandFile, events[i].readable);
    file.seqNo == n && PendingCommand(file, box.lastActed).Some?
  }

  /** Some step of the run does. */
  ghost predicate UnreachedIn(b: Box, events: seq<Event>, n: nat) {
    exists i | 0 <= i < |events| :: UnreachedAt(b, events, i, n)
  }

  lemma {:induction false} ReportsComeFromTheRun(b: Box, events: seq<Event>)
    ensures forall r | r in RunAll(b, events).reported :: r in b.reported || ReportedIn(events, r)
    decreases |events|
  {
    if events != [] {
      var b1 := Apply(b, events[0]);
      ReportsComeFromTheRun(b1, events[1..]);
      assert events == [events[0]] + events[1..] && events[0] in events;
      forall r | r in RunAll(b, events).reported && r !in b.reported
        ensures ReportedIn(events, r)
      {
        if r !in b1.reported {
          assert ReportedIn(events[1..], r);
        }
      }
    }
  }

  lemma {:induction false} UnreachedComeFromTheRun(b: Box, events: seq<Event>, n: nat)
    requires n in RunAll(b, events).unreached && n !in b.unreached
    ensures UnreachedIn(b, events, n)
    decreases |events|
  {
    var b1 := Apply(b, events[0]);
    if n in b1.unreached {
      assert events[..0] == [] && UnreachedAt(b, events, 0, n);
    } else {
      UnreachedComeFromTheRun(b1, events[1..], n);
      var i :| 0 <= i < |events| - 1 && UnreachedAt(b1, events[1..], i, n);
      assert events[..i + 1][1..] == events[1..][..i] && events[..i + 1][0] == events[0];
      assert UnreachedAt(b, events, i + 1, n);
    }
  }

  /**
   What the server took for the outcome of a command is what the frontend said, or that
   the window was out of reach.
   */
  ghost predicate IsOutcome(b: Box, events: seq<Event>, a: Accepted) {
    || ReportedIn(events, Reported(Emitted(a.seqNo, a.command), a.answer.ok, a.answer.text))
    || (UnreachedIn(b, events, a.seqNo) && !a.answer.ok && a.answer.text == UNREACHABLE)
  }

  /**
   Over every run: no number is acted on twice, numbers are acted on in rising
   order, and every answer the server accepts belongs to the command it issued
   under that number, which was acted on, and says what was reported of it.
   */
  lemma ExchangeIsAtMostOnceAndMatched(b: Box, events: seq<Event>)
    requires Init(b) && AllowedRun(b, events)
    ensures Increasing(RunAll(b, events).acted) && Truthful(RunAll(b, events))
    ensures forall a | a in RunAll(b, events).accepted :: IsOutcome(b, events, a)
  {
    RunKeepsInv(b, events);
    ReportsComeFromTheRun(b, events);
    forall a | a in RunAll(b, events).accepted
      ensures IsOutcome(b, events, a)
    {
      assert Vouched(RunAll(b, events), a.command, a.answer);
      if a.seqNo in RunAll(b, events).unreached {
        UnreachedComeFromTheRun(b, events, a.seqNo);
      }
    }
  }

  // -- and an exchange nobody disturbs completes ---------------------------------------------------

  /** The command is handed over, carried out once, and its outcome comes back as reported. */
  lemma UndisturbedExchangeCompletes(b: Box, c: UiCommand, commandReadable: bool, resultReadable: bool, ok: bool,
                                     text: string)
    requires Inv(b) && Allowed(b, Issue(c, commandReadable, resultReadable, true))
    ensures var n := b.top + 1;
            var b1 := Apply(b, Issue(c, commandReadable, resultReadable, true));
            var b2 := Apply(b1, Watch(true, true, true));
            var b3 := Apply(b2, Report(Emitted(n, c), ok, text, true));
            var b4 := Apply(b3, PollAnswer(true));
            && b2.emitted == b.emitted + {Emitted(n, c)} && b4.acted == b.acted + [n] && b4.issuer == Idle
            && b4.accepted == b.accepted + [Accepted(n, c, ResultFile(n, ok, text, Some(c)))]
  {
    NumberIsFreshIffLastIsKnown(b, commandReadable, resultReadable);
  }

  /** Or, with the window out of reach, the server is told so. */
  lemma UnreachableWindowIsReported(b: Box, c: UiCommand, commandReadable: bool, resultReadable: bool)
    requires Inv(b) && Allowed(b, Issue(c, commandReadable, resultReadable, true))
    ensures var n := b.top + 1;
            var b1 := Apply(b, Issue(c, commandReadable, resultReadable, true));
            var b2 := Apply(Apply(b1, Watch(true, false, true)), PollAnswer(true));
            && b2.emitted == b.emitted && b2.issuer == Idle
            && b2.accepted == b.accepted + [Accepted(n, c, ResultFile(n, false, UNREACHABLE, Some(c)))]
  {
    NumberIsFreshIffLastIsKnown(b, commandReadable, resultReadable);
  }

  /** No number is acted on twice, and none of an earlier session. */
  ghost predicate OnceEach(b: Box) {
    Increasing(b.acted) && forall s | s in b.acted :: b.base < s
  }

  /** After a restart that is not, the next tick of the window runs the last command again. */
  lemma HarmfulRestartActsAgain(b: Box, readable: bool) returns (events: seq<Event>)
    requires Inv(b) && !RestartIsHarmless(b, readable)
    ensures var restarted := Apply(b, RestartWindow(readable));
            AllowedRun(restarted, events) && !OnceEach(RunAll(restarted, events))
  {
    var restarted := Apply(b, RestartWindow(readable));
    events := [Watch(true, true, true)];
    var after := Apply(restarted, events[0]);
    assert events[1..] == [] && RunAll(restarted, events) == RunAll(after, []) == after;
    assert after.acted == b.acted + [b.top];
    ActedAgain(b.acted, b.top);
    assert after.acted[|b.acted|] == b.top && b.top in after.acted;
    assert !OnceEach(after);
  }

  /**
   A restart is harmless if and only if nothing that may follow it ever acts on
   a number twice, or on one of an earlier session.
   */
  lemma RestartIsHarmlessIffNothingRunsAgain(b: Box, readable: bool)
    requires Inv(b)
    ensures RestartIsHarmless(b, readable)
            <==> forall events | AllowedRun(Apply(b, RestartWindow(readable)), events) ::
                   OnceEach(RunAll(Apply(b, RestartWindow(readable)), events))
  {
    var restarted := Apply(b, RestartWindow(readable));
    if RestartIsHarmless(b, readable) {
      RestartKeepsInvIffHarmless(b, readable);
      forall events | AllowedRun(restarted, events)
        ensures OnceEach(RunAll(restarted, events))
      {
        RunKeepsInv(restarted, events);
      }
    } else {
      var events := HarmfulRestartActsAgain(b, readable);
    }
  }

  lemma ActedAgain(acted: seq<nat>, s: nat)
    ensures s in acted ==> !Increasing(acted + [s])
  {
    if s in acted {
      var i :| 0 <= i < |acted| && acted[i] == s;
      assert (acted + [s])[i] == s && (acted + [s])[|acted|] == s;
    }
  }

  // -- why the conditions are there -------------------------------------------------------------

  /** A box as an earlier session may leave it: no command file, an old answer numbered 1. */
  function LeftOver(stale: ResultFile): Box {
    Box(None, Some(stale), Idle, 0, {}, 1, 1, map[], [], {}, {}, [])
  }

  /**
   When neither file shows the last number, it is given out again. With the
   command file gone and the result file unreadable for a moment, the old
   command's answer is taken for the new one's.
   */
  lemma UnreadableNumberAcceptsAStaleAnswer(stale: ResultFile)
    requires stale.seqNo == 1 && stale.of == Some(OpenAiPanel)
    ensures var end := RunAll(LeftOver(stale), [Issue(RunQuery, true, false, true), PollAnswer(true)]);
            Init(LeftOver(stale)) && end.accepted == [Accepted(1, RunQuery, stale)] && !Truthful(end)
  {
    var b := LeftOver(stale);
    var events := [Issue(RunQuery, true, false, true), PollAnswer(true)];
    var b1 := Apply(b, events[0]);
    assert IssueSeq(b, true, false) == 1;
    assert events[1..] == [events[1]] && [events[1]][1..] == [];
    var end := Apply(b1, events[1]);
    assert RunAll(b1, events[1..]) == RunAll(end, []) == end;
    assert Accepted(1, RunQuery, stale) in end.accepted;
  }

  const FIRST: Box := Box(None, None, Idle, 0, {}, 0, 0, map[], [], {}, {}, [])

  /**
   A readable result file is not enough when it is behind. The server gives up
   on a command the window is still working on, cannot read its own command
   file, and numbers the next command the same: the late answer is taken for it.
   */
  lemma ReadableResultIsNotEnough()
    ensures var late := Emitted(1, OpenAiPanel);
            var events := [Issue(OpenAiPanel, true, true, true), Watch(true, true, true), GiveUp,
                           Issue(RunQuery, false, true, true), Report(late, true, "", true), PollAnswer(true)];
            var end := RunAll(FIRST, events);
            Init(FIRST) && end.accepted == [Accepted(1, RunQuery, ResultFile(1, true, "", Some(OpenAiPanel)))]
                && !Truthful(end)
  {
    var late := Emitted(1, OpenAiPanel);
    var events := [Issue(OpenAiPanel, true, true, true), Watch(true, true, true), GiveUp,
                   Issue(RunQuery, false, true, true), Report(late, true, "", true), PollAnswer(true)];
    SixSteps(FIRST, events);
    var b := GivenUp();
    var end := LateAnswer(b);
    assert Accepted(1, RunQuery, ResultFile(1, true, "", Some(OpenAiPanel))) in end.accepted;
  }

  /** The window has taken command 1, and the server has stopped waiting for it. */
  lemma GivenUp() returns (b: Box)
    ensures b == Apply(Apply(Apply(FIRST, Issue(OpenAiPanel, true, true, true)), Watch(true, true, true)), GiveUp)
    ensures b == Box(Some(CommandFile(1, Some(OpenAiPanel))), None, Idle, 1, {Emitted(1, OpenAiPanel)}, 0, 1,
                     map[1 := OpenAiPanel], [1], {}, {}, [])
  {
    b := Apply(Apply(Apply(FIRST, Issue(OpenAiPanel, true, true, true)), Watch(true, true, true)), GiveUp);
  }

  /** The next command gets the same number, and the late answer. */
  lemma LateAnswer(b: Box) returns (end: Box)
    requires b == Box(Some(CommandFile(1, Some(OpenAiPanel))), None, Idle, 1, {Emitted(1, OpenAiPanel)}, 0, 1,
                      map[1 := OpenAiPanel], [1], {}, {}, [])
    ensures end == Apply(Apply(Apply(b, Issue(RunQuery, false, true, true)),
            Report(Emitted(1, OpenAiPanel), true, "", true)), PollAnswer(true))
    ensures end.accepted == [Accepted(1, RunQuery, ResultFile(1, true, "", Some(OpenAiPanel)))]
  {
    var b1 := Apply(b, Issue(RunQuery, false, true, true));
    assert b1.issuer == Waiting(1, RunQuery);
    var b2 := Apply(b1, Report(Emitted(1, OpenAiPanel), true, "", true));
    end := Apply(b2, PollAnswer(true));
  }

  lemma SixSteps(b: Box, e: seq<Event>)
    requires |e| == 6
    ensures RunAll(b, e) == Apply(Apply(Apply(Apply(Apply(Apply(b, e[0]), e[1]), e[2]), e[3]), e[4]), e[5])
  {
    var b3 := Apply(Apply(Apply(b, e[0]), e[1]), e[2]);
    RunFrom(b, e, 0);
    RunFrom(Apply(b, e[0]), e, 1);
    RunFrom(Apply(Apply(b, e[0]), e[1]), e, 2);
    RunFrom(b3, e, 3);
    RunFrom(Apply(b3, e[3]), e, 4);
    RunFrom(Apply(Apply(b3, e[3]), e[4]), e, 5);
    assert e[0..] == e && e[6..] == [];
  }

  lemma RunFrom(b: Box, events: seq<Event>, i: nat)
    requires i < |events|
    ensures RunAll(b, events[i..]) == RunAll(Apply(b, events[i]), events[i + 1..])
  {
    assert events[i..][1..] == events[i + 1..];
  }

  /** And a window that restarts while its command file cannot be read runs the last command again. */
  lemma UnreadableRestartActsTwice(command: UiCommand)
    ensures var end := RunAll(FIRST, [Issue(command, true, true, true), Watch(true, true, true), RestartWindow(false),
            Watch(true, true, true)]);
            Init(FIRST) && end.acted == [1, 1]
  {
    var watch := Watch(true, true, true);
    var e := [Issue(command, true, true, true), watch, RestartWindow(false), watch];
    var b1 := Apply(FIRST, e[0]);
    var b2 := Apply(b1, e[1]);
    var b3 := Apply(b2, e[2]);
    RunFrom(b3, e, 3);
    RunFrom(b2, e, 2);
    RunFrom(b1, e, 1);
    RunFrom(FIRST, e, 0);
    assert e[0..] == e && e[4..] == [];
  }
}
