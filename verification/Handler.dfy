/**
 The agent's request handler: confirm, dispatch, log. Any number of requests are
 handled at once and their steps interleave; only Log itself is atomic.
 */
module Handler {
  import Audit

  const OK := "OK"
  const ERROR := "ERROR"
  const DENIED := "DENIED"
  const APPROVED := "APPROVED"

  /** A request by its audit action and detail; `guarded` is needsConfirmation. */
  datatype Request = Request(action: string, detail: string, guarded: bool)

  /** Whether a Logger and a ConfirmFunc are configured. */
  datatype Config = Config(logs: bool, prompts: bool)

  /** Where the goroutine handling a request stands. */
  datatype Pc = Arrived | Granted | Refused | Ready | Dispatched(success: bool) | Answered(success: bool) | Turned

  datatype Thread = Thread(req: Request, pc: Pc)

  /** What the outside sees of thread `t`: a log entry, or the tool being run. */
  datatype Event = Wrote(t: nat, action: string, detail: string, result: string) | Ran(t: nat)

  datatype State = State(threads: seq<Thread>, history: seq<Event>)

  const INIT := State([], [])

  datatype Step =
    | Arrive(req: Request)
    | Check(t: nat, yes: bool)
    | LogDecision(t: nat)
    | Dispatch(t: nat, success: bool)
    | LogAction(t: nat)

  predicate Enabled(s: State, step: Step) {
    match step
    case Arrive(_) => true
    case Check(t, _) => t < |s.threads| && s.threads[t].pc.Arrived?
    case LogDecision(t) => t < |s.threads| && (s.threads[t].pc.Granted? || s.threads[t].pc.Refused?)
    case Dispatch(t, _) => t < |s.threads| && s.threads[t].pc.Ready?
    case LogAction(t) => t < |s.threads| && s.threads[t].pc.Dispatched?
  }

  /** Thread `t` moves to `pc`, leaving the given events behind. */
  function Move(s: State, t: nat, pc: Pc, left: seq<Event>): State
    requires t < |s.threads|
  {
    State(s.threads[t := s.threads[t].(pc := pc)], s.history + left)
  }

  function Entry(cfg: Config, t: nat, action: string, detail: string, result: string): seq<Event> {
    if cfg.logs then [Wrote(t, action, detail, result)] else []
  }

  function ResultOf(success: bool): string { if success then OK else ERROR }

  function Apply(cfg: Config, s: State, step: Step): State
    requires Enabled(s, step)
  {
    match step
    case Arrive(req) => State(s.threads + [Thread(req, Arrived)], s.history)
    case Check(t, yes) =>
      var pc := if !s.threads[t].req.guarded then Ready else if cfg.prompts && !yes then Refused else Granted;
      Move(s, t, pc, [])
    case LogDecision(t) =>
      var req := s.threads[t].req;
      if s.threads[t].pc.Refused? then Move(s, t, Turned, Entry(cfg, t, DENIED, req.detail, DENIED))
      else Move(s, t, Ready, Entry(cfg, t, APPROVED, req.detail, OK))
    case Dispatch(t, success) => Move(s, t, Pc.Dispatched(success), [Ran(t)])
    case LogAction(t) =>
      var req, success := s.threads[t].req, s.threads[t].pc.success;
      Move(s, t, Answered(success), Entry(cfg, t, req.action, req.detail, ResultOf(success)))
  }

  ghost predicate Runs(cfg: Config, s: State, steps: seq<Step>, end: State)
    decreases |steps|
  {
    if steps == [] then end == s else Enabled(s, steps[0]) && Runs(cfg, Apply(cfg, s, steps[0]), steps[1..], end)
  }

  // ---------------------------------------------------------------- the story of one request

  /** What request `t` has left in the history when it stands at `pc`, in this order. */
  function Story(cfg: Config, t: nat, req: Request, pc: Pc): seq<Event> {
    var approval := if req.guarded then Entry(cfg, t, APPROVED, req.detail, OK) else [];
    match pc
    case Arrived => []
    case Granted => []
    case Refused => []
    case Turned => Entry(cfg, t, DENIED, req.detail, DENIED)
    case Ready => approval
    case Dispatched(_) => approval + [Ran(t)]
    case Answered(success) => approval + [Ran(t)] + Entry(cfg, t, req.action, req.detail, ResultOf(success))
  }

  /** The events of thread `t`, in the order they happened. */
  function Own(history: seq<Event>, t: nat): seq<Event> {
    if history == [] then []
    else
      var e := history[|history| - 1];
      Own(history[..|history| - 1], t) + if e.t == t then [e] else []
  }

  /** Only a guarded request is ever asked about, and only a ConfirmFunc refuses. */
  predicate Sensible(cfg: Config, thread: Thread) {
    && (thread.pc.Granted? || thread.pc.Refused? || thread.pc.Turned? ==> thread.req.guarded)
    && (thread.pc.Refused? || thread.pc.Turned? ==> cfg.prompts)
  }

  ghost predicate Inv(cfg: Config, s: State) {
    && (forall t: nat :: t < |s.threads| ==> Own(s.history, t) == Story(cfg, t, s.threads[t].req, s.threads[t].pc))
    && (forall i :: 0 <= i < |s.history| ==> s.history[i].t < |s.threads|)
    && (forall t: nat {:trigger s.threads[t]} :: t < |s.threads| ==> Sensible(cfg, s.threads[t]))
  }

  lemma OwnGrows(history: seq<Event>, e: Event, t: nat)
    ensures Own(history + [e], t) == Own(history, t) + if e.t == t then [e] else []
  {
    assert (history + [e])[..|history|] == history;
  }

  lemma {:induction false} OwnElsewhere(history: seq<Event>, t: nat)
    requires forall i :: 0 <= i < |history| ==> history[i].t != t
    ensures Own(history, t) == []
  {
    if history != [] {
      OwnElsewhere(history[..|history| - 1], t);
    }
  }

  lemma OwnMoved(history: seq<Event>, left: seq<Event>, u: nat, t: nat)
    requires |left| <= 1 && (left != [] ==> left[0].t == t)
    ensures Own(history + left, u) == Own(history, u) + if u == t then left else []
  {
    if left == [] {
      assert history + left == history;
    } else {
      assert left == [left[0]];
      OwnGrows(history, left[0], u);
    }
  }

  lemma MoveKeeps(cfg: Config, s: State, t: nat, pc: Pc, left: seq<Event>)
    requires Inv(cfg, s) && t < |s.threads| && |left| <= 1 && (left != [] ==> left[0].t == t)
    requires Story(cfg, t, s.threads[t].req, pc) == Story(cfg, t, s.threads[t].req, s.threads[t].pc) + left
    requires Sensible(cfg, Thread(s.threads[t].req, pc))
    ensures Inv(cfg, Move(s, t, pc, left))
  {
    var s' := Move(s, t, pc, left);
    forall u: nat | u < |s'.threads| ensures Own(s'.history, u) == Story(cfg, u, s'.threads[u].req, s'.threads[u].pc) {
      OwnMoved(s.history, left, u, t);
      assert Own(s.history, u) == Story(cfg, u, s.threads[u].req, s.threads[u].pc);
    }
  }

  lemma ArriveKeeps(cfg: Config, s: State, req: Request)
    requires Inv(cfg, s)
    ensures Inv(cfg, Apply(cfg, s, Arrive(req)))
  {
    OwnElsewhere(s.history, |s.threads|);
  }

  lemma StepKeeps(cfg: Config, s: State, step: Step)
    requires Inv(cfg, s) && Enabled(s, step)
    ensures Inv(cfg, Apply(cfg, s, step))
  {
    if step.Arrive? {
      ArriveKeeps(cfg, s, step.req);
    } else {
      var t, s' := step.t, Apply(cfg, s, step);
      var left := s'.history[|s.history|..];
      assert Sensible(cfg, s.threads[t]);
      MoveKeeps(cfg, s, t, s'.threads[t].pc, left);
    }
  }

  /** In every interleaving each request leaves exactly its own story. */
  lemma {:induction false} RunKeeps(cfg: Config, s: State, steps: seq<Step>, end: State)
    requires Inv(cfg, s) && Runs(cfg, s, steps, end)
    ensures Inv(cfg, end)
    decreases |steps|
  {
    if steps != [] {
      StepKeeps(cfg, s, steps[0]);
      RunKeeps(cfg, Apply(cfg, s, steps[0]), steps[1..], end);
    }
  }

  lemma ReachableInv(cfg: Config, steps: seq<Step>, end: State)
    requires Runs(cfg, INIT, steps, end)
    ensures Inv(cfg, end)
  {
    RunKeeps(cfg, INIT, steps, end);
  }

  // ---------------------------------------------------------------- confirmation

  lemma {:induction false} OwnPrefix(history: seq<Event>, k: nat, t: nat)
    requires k <= |history|
    ensures Own(history[..k], t) <= Own(history, t)
  {
    if k < |history| {
      var before := history[..|history| - 1];
      OwnPrefix(before, k, t);
      assert before[..k] == history[..k];
    } else {
      assert history[..k] == history;
    }
  }

  lemma {:induction false} OwnMembers(history: seq<Event>, e: Event)
    ensures e in Own(history, e.t) <==> e in history
  {
    if history != [] {
      var before := history[..|history| - 1];
      OwnMembers(before, e);
      assert history == before + [history[|history| - 1]];
    }
  }

  lemma OwnStranger(history: seq<Event>, e: Event, t: nat)
    requires e in Own(history, t)
    ensures e.t == t
  {
    if history != [] {
      var before := history[..|history| - 1];
      if e in Own(before, t) {
        OwnStranger(before, e, t);
      }
    }
  }

  /** A guarded request is run only after its own approval has been logged. */
  lemma ApprovedBeforeRun(cfg: Config, steps: seq<Step>, end: State, k: nat)
    requires Runs(cfg, INIT, steps, end) && cfg.logs && k < |end.history| && end.history[k].Ran?
    ensures end.history[k].t < |end.threads|
    ensures var t := end.history[k].t; var req := end.threads[t].req;
      req.guarded ==> Wrote(t, "APPROVED", req.detail, "OK") in end.history[..k]
  {
    ReachableInv(cfg, steps, end);
    var h, t := end.history, end.history[k].t;
    var approval := Wrote(t, APPROVED, end.threads[t].req.detail, OK);
    OwnMembers(h, h[k]);
    OwnPrefix(h, k + 1, t);
    assert h[..k + 1] == h[..k] + [h[k]];
    OwnGrows(h[..k], h[k], t);
    if end.threads[t].req.guarded {
      assert Own(h, t)[0] == approval;
      assert approval in Own(h[..k], t);
      OwnMembers(h[..k], approval);
    }
  }

  /** A refused request is never run. */
  lemma RefusedNeverRuns(cfg: Config, steps: seq<Step>, end: State, t: nat)
    requires Runs(cfg, INIT, steps, end) && t < |end.threads|
    requires end.threads[t].pc.Refused? || end.threads[t].pc.Turned?
    ensures Ran(t) !in end.history && end.threads[t].req.guarded && cfg.prompts
  {
    ReachableInv(cfg, steps, end);
    OwnMembers(end.history, Ran(t));
  }

  /** The request passed its confirmation, or was stopped there. */
  predicate Passed(pc: Pc) { !pc.Arrived? && !Stopped(pc) }

  predicate Stopped(pc: Pc) { pc.Refused? || pc.Turned? }

  /** One step: only the user's answer decides a guarded request, and nothing undoes it. */
  lemma StepDecides(cfg: Config, s: State, step: Step, t: nat)
    requires Enabled(s, step) && t < |Apply(cfg, s, step).threads|
    ensures var s' := Apply(cfg, s, step);
      && (t < |s.threads| ==> s'.threads[t].req == s.threads[t].req)
      && (t >= |s.threads| ==> s'.threads[t].pc.Arrived?)
      && (cfg.prompts && s'.threads[t].req.guarded ==>
           var before := if t < |s.threads| then s.threads[t].pc else Arrived;
           && (Passed(s'.threads[t].pc) <==> Passed(before) || step == Check(t, true))
           && (Stopped(s'.threads[t].pc) <==> Stopped(before) || step == Check(t, false)))
  {
  }

  /** A whole run: a guarded request stands past its confirmation exactly if the user said yes, or it did before. */
  lemma {:induction false} RunDecides(cfg: Config, s: State, steps: seq<Step>, end: State, t: nat)
    requires Runs(cfg, s, steps, end) && t < |end.threads| && cfg.prompts && end.threads[t].req.guarded
    ensures |s.threads| <= |end.threads| && (t < |s.threads| ==> s.threads[t].req == end.threads[t].req)
    ensures var before := if t < |s.threads| then s.threads[t].pc else Arrived;
      && (Passed(end.threads[t].pc) <==> Passed(before) || Check(t, true) in steps)
      && (Stopped(end.threads[t].pc) <==> Stopped(before) || Check(t, false) in steps)
    decreases |steps|
  {
    if steps == [] {
    } else {
      var u := Apply(cfg, s, steps[0]);
      RunDecides(cfg, u, steps[1..], end, t);
      assert steps == [steps[0]] + steps[1..];
      if t < |u.threads| {
        StepDecides(cfg, s, steps[0], t);
      }
    }
  }

  /**
   Logger or not, a request that needs confirmation runs only if the user said
   yes to it, and never if the user said no; once it is answered it has run
   exactly if the user said yes.
   */
  lemma UserDecides(cfg: Config, steps: seq<Step>, end: State, t: nat)
    requires Runs(cfg, INIT, steps, end) && t < |end.threads| && cfg.prompts && end.threads[t].req.guarded
    ensures Ran(t) in end.history ==> Check(t, true) in steps
    ensures Check(t, false) in steps ==> Ran(t) !in end.history
    ensures end.threads[t].pc.Answered? || end.threads[t].pc.Turned? ==>
      (Ran(t) in end.history <==> Check(t, true) in steps)
  {
    ReachableInv(cfg, steps, end);
    RunDecides(cfg, INIT, steps, end, t);
    OwnMembers(end.history, Ran(t));
  }

  /** The tool of `t` was run with this outcome exactly if the run says so. */
  lemma {:induction false} RunDispatches(cfg: Config, s: State, steps: seq<Step>, end: State, t: nat, success: bool)
    requires Runs(cfg, s, steps, end) && t < |end.threads|
    ensures |s.threads| <= |end.threads|
    ensures Outcome(end.threads[t].pc, success) <==>
      (t < |s.threads| && Outcome(s.threads[t].pc, success)) || Dispatch(t, success) in steps
    decreases |steps|
  {
    if steps == [] {
    } else {
      var u := Apply(cfg, s, steps[0]);
      RunDispatches(cfg, u, steps[1..], end, t, success);
      assert steps == [steps[0]] + steps[1..];
      DispatchStep(cfg, s, steps[0], t, success);
    }
  }

  predicate Outcome(pc: Pc, success: bool) { pc == Pc.Dispatched(success) || pc == Answered(success) }

  lemma DispatchStep(cfg: Config, s: State, step: Step, t: nat, success: bool)
    requires Enabled(s, step)
    ensures |s.threads| <= |Apply(cfg, s, step).threads| && (step == Dispatch(t, success) ==> t < |s.threads|)
    ensures t < |Apply(cfg, s, step).threads| ==>
      (Outcome(Apply(cfg, s, step).threads[t].pc, success) <==>
       (t < |s.threads| && Outcome(s.threads[t].pc, success)) || step == Dispatch(t, success))
  {
  }

  /**
   What an answered request has left behind, in this order: the approval if it
   needed one, the run, and one entry with the tool's own result; a request turned
   down has left one denial and nothing else. Without a logger only runs remain.
   */
  lemma AnsweredLeaves(cfg: Config, steps: seq<Step>, end: State, t: nat)
    requires Runs(cfg, INIT, steps, end) && t < |end.threads|
    ensures var th, own := end.threads[t], Own(end.history, t);
      && (th.pc.Turned? ==> own == if cfg.logs then [Wrote(t, "DENIED", th.req.detail, "DENIED")] else [])
      && (th.pc.Answered? && !cfg.logs ==> own == [Ran(t)])
      && var result := if Dispatch(t, true) in steps then "OK" else "ERROR";
      && var approval := if th.req.guarded then [Wrote(t, "APPROVED", th.req.detail, "OK")] else [];
      (th.pc.Answered? && cfg.logs ==> own == approval + [Ran(t), Wrote(t, th.req.action, th.req.detail, result)])
    ensures end.threads[t].pc.Answered? ==> Dispatch(t, true) in steps || Dispatch(t, false) in steps
    ensures !(Dispatch(t, true) in steps && Dispatch(t, false) in steps)
  {
    ReachableInv(cfg, steps, end);
    RunDispatches(cfg, INIT, steps, end, t, true);
    RunDispatches(cfg, INIT, steps, end, t, false);
    assert Own(end.history, t) == Story(cfg, t, end.threads[t].req, end.threads[t].pc);
  }

  // ---------------------------------------------------------------- conservation

  function Entries(history: seq<Event>): nat {
    if history == [] then 0
    else Entries(history[..|history| - 1]) + if history[|history| - 1].Wrote? then 1 else 0
  }

  function Executions(history: seq<Event>): nat {
    if history == [] then 0
    else Executions(history[..|history| - 1]) + if history[|history| - 1].Ran? then 1 else 0
  }

  lemma CountsGrow(history: seq<Event>, e: Event)
    ensures Entries(history + [e]) == Entries(history) + if e.Wrote? then 1 else 0
    ensures Executions(history + [e]) == Executions(history) + if e.Ran? then 1 else 0
  {
    assert (history + [e])[..|history|] == history;
  }

  /** What a thread has contributed so far: log entries and tool runs. */
  function WrittenBy(cfg: Config, thread: Thread): nat {
    if !cfg.logs then 0
    else
      match thread.pc
      case Turned => 1
      case Ready => if thread.req.guarded then 1 else 0
      case Dispatched(_) => if thread.req.guarded then 1 else 0
      case Answered(_) => if thread.req.guarded then 2 else 1
      case _ => 0
  }

  function RunBy(thread: Thread): nat { if thread.pc.Dispatched? || thread.pc.Answered? then 1 else 0 }

  function Approved(thread: Thread): nat { if thread.pc.Answered? && thread.req.guarded then 1 else 0 }

  function TurnedDown(thread: Thread): nat { if thread.pc.Turned? then 1 else 0 }

  function Sum(of: Thread -> nat, threads: seq<Thread>): nat {
    if threads == [] then 0 else Sum(of, threads[..|threads| - 1]) + of(threads[|threads| - 1])
  }

  lemma {:induction false} SumUpdate(of: Thread -> nat, threads: seq<Thread>, t: nat, thread: Thread)
    requires t < |threads|
    ensures Sum(of, threads[t := thread]) + of(threads[t]) == Sum(of, threads) + of(thread)
  {
    var n := |threads| - 1;
    if t < n {
      assert threads[t := thread][..n] == threads[..n][t := thread];
      SumUpdate(of, threads[..n], t, thread);
    } else {
      assert threads[t := thread][..n] == threads[..n];
    }
  }

  function Approvals(threads: seq<Thread>): nat { Sum(Approved, threads) }

  function Denials(threads: seq<Thread>): nat { Sum(TurnedDown, threads) }

  function Writers(cfg: Config): Thread -> nat { thread => WrittenBy(cfg, thread) }

  /** Every entry and every execution in the history is some thread's contribution. */
  ghost predicate Balanced(cfg: Config, s: State) {
    && Entries(s.history) == Sum(Writers(cfg), s.threads)
    && Executions(s.history) == Sum(RunBy, s.threads)
  }

  lemma CountsMoved(history: seq<Event>, left: seq<Event>)
    requires |left| <= 1
    ensures Entries(history + left) == Entries(history) + if left != [] && left[0].Wrote? then 1 else 0
    ensures Executions(history + left) == Executions(history) + if left != [] && left[0].Ran? then 1 else 0
  {
    if left == [] {
      assert history + left == history;
    } else {
      assert left == [left[0]];
      CountsGrow(history, left[0]);
    }
  }

  lemma MoveBalances(cfg: Config, s: State, t: nat, pc: Pc, left: seq<Event>)
    requires Balanced(cfg, s) && t < |s.threads| && |left| <= 1
    requires WrittenBy(cfg, Thread(s.threads[t].req, pc)) ==
      WrittenBy(cfg, s.threads[t]) + if left != [] && left[0].Wrote? then 1 else 0
    requires RunBy(Thread(s.threads[t].req, pc)) == RunBy(s.threads[t]) + if left != [] && left[0].Ran? then 1 else 0
    ensures Balanced(cfg, Move(s, t, pc, left))
  {
    var thread := Thread(s.threads[t].req, pc);
    SumUpdate(Writers(cfg), s.threads, t, thread);
    SumUpdate(RunBy, s.threads, t, thread);
    CountsMoved(s.history, left);
  }

  lemma ArriveBalances(cfg: Config, s: State, req: Request)
    requires Balanced(cfg, s)
    ensures Balanced(cfg, Apply(cfg, s, Arrive(req)))
  {
    var grown := s.threads + [Thread(req, Arrived)];
    assert grown[..|s.threads|] == s.threads;
  }

  lemma StepBalances(cfg: Config, s: State, step: Step)
    requires Inv(cfg, s) && Balanced(cfg, s) && Enabled(s, step)
    ensures Balanced(cfg, Apply(cfg, s, step))
  {
    if step.Arrive? {
      ArriveBalances(cfg, s, step.req);
    } else {
      var s' := Apply(cfg, s, step);
      assert Sensible(cfg, s.threads[step.t]);
      MoveBalances(cfg, s, step.t, s'.threads[step.t].pc, s'.history[|s.history|..]);
    }
  }

  lemma {:induction false} RunBalances(cfg: Config, s: State, steps: seq<Step>, end: State)
    requires Inv(cfg, s) && Balanced(cfg, s) && Runs(cfg, s, steps, end)
    ensures Balanced(cfg, end)
    decreases |steps|
  {
    if steps != [] {
      StepKeeps(cfg, s, steps[0]);
      StepBalances(cfg, s, steps[0]);
      RunBalances(cfg, Apply(cfg, s, steps[0]), steps[1..], end);
    }
  }

  ghost predicate Completed(threads: seq<Thread>) {
    forall t :: 0 <= t < |threads| ==> threads[t].pc.Answered? || threads[t].pc.Turned?
  }

  lemma {:induction false} CompletedSums(cfg: Config, threads: seq<Thread>)
    requires cfg.logs && Completed(threads)
    ensures Sum(Writers(cfg), threads) == Sum(RunBy, threads) + Approvals(threads) + Denials(threads)
  {
    if threads != [] {
      assert threads[|threads| - 1].pc.Answered? || threads[|threads| - 1].pc.Turned?;
      CompletedSums(cfg, threads[..|threads| - 1]);
    }
  }

  /**
   When every request has been answered the log holds one entry for each tool
   run, each approval and each denial, whatever the interleaving was.
   */
  lemma EntriesConserved(cfg: Config, steps: seq<Step>, end: State)
    requires Runs(cfg, INIT, steps, end) && cfg.logs && Completed(end.threads)
    ensures Entries(end.history) == Executions(end.history) + Approvals(end.threads) + Denials(end.threads)
    ensures Executions(end.history) + Denials(end.threads) == |end.threads|
  {
    RunBalances(cfg, INIT, steps, end);
    CompletedSums(cfg, end.threads);
    EveryoneCounted(end.threads);
  }

  /** A completed request either ran its tool or was turned down. */
  lemma {:induction false} EveryoneCounted(threads: seq<Thread>)
    requires Completed(threads)
    ensures Sum(RunBy, threads) + Denials(threads) == |threads|
  {
    if threads != [] {
      assert threads[|threads| - 1].pc.Answered? || threads[|threads| - 1].pc.Turned?;
      EveryoneCounted(threads[..|threads| - 1]);
    }
  }

  // ---------------------------------------------------------------- the handler itself

  /** The log, in order, is what the handlers of a history wrote, each entry at a time of its own. */
  ghost predicate Logged(history: seq<Event>, log: seq<Audit.Record>) {
    if history == [] then log == []
    else
      var front, e := history[..|history| - 1], history[|history| - 1];
      if e.Ran? then Logged(front, log)
      else
        && log != []
        && log[|log| - 1] == Audit.Record(log[|log| - 1].time, e.action, e.detail, e.result)
        && Logged(front, log[..|log| - 1])
  }

  lemma {:induction false} LoggedCounts(history: seq<Event>, log: seq<Audit.Record>)
    requires Logged(history, log)
    ensures |log| == Entries(history)
  {
    if history == [] {
    } else {
      var front := history[..|history| - 1];
      LoggedCounts(front, if history[|history| - 1].Ran? then log else log[..|log| - 1]);
    }
  }

  /**
   The session summary of the log that any interleaving leaves once all requests
   are answered adds up to the tools run, the approvals and the denials.
   */
  lemma SummaryConserved(cfg: Config, steps: seq<Step>, end: State, hash: string -> string,
                         log: seq<Audit.Record>, entries: seq<Audit.Entry>, counts: map<string, nat>)
    requires Runs(cfg, INIT, steps, end) && cfg.logs && Completed(end.threads)
    requires Logged(end.history, log) && Audit.EntriesMatch(hash, entries, log) && Audit.Tallies(counts, entries)
    ensures Audit.Total(counts) == Executions(end.history) + Approvals(end.threads) + Denials(end.threads)
  {
    EntriesConserved(cfg, steps, end);
    LoggedCounts(end.history, log);
    Audit.TallyTotal(counts, entries);
  }

  /** The log records among some events. */
  ghost function Records(events: seq<Event>, now: string): seq<Audit.Record> {
    if events == [] then []
    else
      (if events[0].Wrote? then [Audit.Record(now, events[0].action, events[0].detail, events[0].result)] else [])
      + Records(events[1..], now)
  }

  /** The records of a whole story are what `Handle` adds to the log. */
  lemma StoryRecords(prompts: bool, req: Request, success: bool, now: string)
    ensures Records(Story(Config(true, true), 0, req, Turned), now) ==
      [Audit.Record(now, "DENIED", req.detail, "DENIED")]
    ensures Records(Story(Config(true, prompts), 0, req, Answered(success)), now) ==
      (if req.guarded then [Audit.Record(now, "APPROVED", req.detail, "OK")] else [])
      + [Audit.Record(now, req.action, req.detail, if success then "OK" else "ERROR")]
  {
    var story := Story(Config(true, prompts), 0, req, Answered(success));
    var last := Wrote(0, req.action, req.detail, ResultOf(success));
    if req.guarded {
      assert story == [Wrote(0, APPROVED, req.detail, OK), Ran(0), last];
      assert story[1..] == [Ran(0), last] && story[1..][1..] == [last] && [last][1..] == [];
    } else {
      assert story == [Ran(0), last];
      assert story[1..] == [last] && [last][1..] == [];
      assert Records([last], now) == [Audit.Record(now, req.action, req.detail, ResultOf(success))];
    }
  }

  datatype Response = Denied(detail: string) | Done(success: bool)

  /**
   One request handled from start to end. `yes` is the user's answer and `success`
   the tool's; the log grows by exactly the records of the request's story.
   */
  method Handle(logger: Audit.Logger?, prompts: bool, req: Request, yes: bool, success: bool, now: string)
    returns (r: Response)
    requires logger != null ==> logger.Valid()
    modifies logger
    ensures r == if req.guarded && prompts && !yes then Denied(req.detail) else Done(success)
    ensures logger != null ==> logger.Valid()
    ensures logger != null && r.Denied? ==>
      logger.history == old(logger.history) + [Audit.Record(now, "DENIED", req.detail, "DENIED")]
    ensures logger != null && r.Done? ==> (
      var approval := if req.guarded then [Audit.Record(now, "APPROVED", req.detail, "OK")] else [];
      var last := Audit.Record(now, req.action, req.detail, if success then "OK" else "ERROR");
      logger.history == old(logger.history) + approval + [last])
  {
    if req.guarded {
      if prompts && !yes {
        if logger != null {
          var _ := logger.Log(now, DENIED, req.detail, DENIED);
        }
        return Denied(req.detail);
      }
      if logger != null {
        var _ := logger.Log(now, APPROVED, req.detail, OK);
      }
    }
    if logger != null {
      var result := OK;
      if !success {
        result := ERROR;
      }
      var _ := logger.Log(now, req.action, req.detail, result);
    }
    r := Done(success);
  }
}
