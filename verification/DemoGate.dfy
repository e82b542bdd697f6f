/** The milestone gate over a dependency graph: scripts/demo_gate.py. */
module DemoGate {
  import opened Wrappers

  type Milestone = string
  type Moment = int

  datatype Status = NotStarted | InProgress | AwaitingApproval | Pass | Rejected

  datatype Action = Start | Submit | Approve | Reject

  datatype Note = Note(at: Moment, action: Action, who: Option<string>, remark: Option<string>)

  datatype Entry = Entry(
    status: Status,
    startedAt: Option<Moment>,
    submittedAt: Option<Moment>,
    approvedAt: Option<Moment>,
    rejectedAt: Option<Moment>,
    history: seq<Note>)

  /** depends_on of every milestone of the contract. */
  type Contract = map<Milestone, seq<Milestone>>

  type Entries = map<Milestone, Entry>

  datatype GateError =
    | UnknownMilestone
    | CannotStart
    | DependenciesNotPass
    | MustBeInProgress
    | MustAwaitApproval
    | CannotReject

  const FRESH := Entry(NotStarted, None, None, None, None, [])

  function Initial(contract: Contract): Entries {
    map m | m in contract :: FRESH
  }

  function Noted(e: Entry, note: Note): Entry {
    e.(history := e.history + [note])
  }

  /** The first dependency whose status cannot be read, or is not PASS, decides. */
  predicate DependenciesKnown(entries: Entries, deps: seq<Milestone>) {
    forall i :: 0 <= i < |deps| ==> deps[i] in entries
  }

  predicate DependenciesPass(entries: Entries, deps: seq<Milestone>) {
    forall i :: 0 <= i < |deps| ==> deps[i] in entries && entries[deps[i]].status.Pass?
  }

  datatype Command = Command(action: Action, milestone: Milestone, at: Moment, who: Option<string>, remark: Option<string>)

  /** One command on the loaded state; an error leaves the saved state as it was. */
  function Applied(contract: Contract, entries: Entries, c: Command): Result<Entries, GateError> {
    if c.milestone !in entries || c.milestone !in contract then Err(UnknownMilestone)
    else
      var e := entries[c.milestone];
      var note := Note(c.at, c.action, c.who, c.remark);
      match c.action
      case Start =>
        if !e.status.NotStarted? && !e.status.Rejected? then Err(CannotStart)
        else if !DependenciesKnown(entries, contract[c.milestone]) then Err(UnknownMilestone)
        else if !DependenciesPass(entries, contract[c.milestone]) then Err(DependenciesNotPass)
        else Ok(entries[c.milestone := Noted(e.(status := InProgress, startedAt := Some(c.at), submittedAt := None), note)])
      case Submit =>
        if !e.status.InProgress? then Err(MustBeInProgress)
        else Ok(entries[c.milestone := Noted(e.(status := AwaitingApproval, submittedAt := Some(c.at)), note)])
      case Approve =>
        if !e.status.AwaitingApproval? then Err(MustAwaitApproval)
        else Ok(entries[c.milestone := Noted(e.(status := Pass, approvedAt := Some(c.at)), note)])
      case Reject =>
        if !e.status.InProgress? && !e.status.AwaitingApproval? then Err(CannotReject)
        else Ok(entries[c.milestone := Noted(e.(status := Rejected, rejectedAt := Some(c.at)), note)])
  }

  class Gate {
    const contract: Contract
    var entries: Entries

    constructor (contract: Contract)
      ensures this.contract == contract && entries == Initial(contract)
    {
      this.contract := contract;
      entries := map m | m in contract :: FRESH;
    }

    /** start, submit, approve or reject: true when the state was changed. */
    method Do(c: Command) returns (result: Result<(), GateError>)
      modifies this
      ensures match Applied(contract, old(entries), c)
        case Ok(after) => result == Ok(()) && entries == after
        case Err(error) => result == Err(error) && entries == old(entries)
    {
      if c.milestone !in entries || c.milestone !in contract {
        return Err(UnknownMilestone);
      }
      var e := entries[c.milestone];
      match c.action {
        case Start =>
          if e.status != NotStarted && e.status != Rejected {
            return Err(CannotStart);
          }
          var deps := contract[c.milestone];
          var bad := 0;
          for i := 0 to |deps|
            invariant forall k :: 0 <= k < i ==> deps[k] in entries
            invariant bad == 0 <==> forall k :: 0 <= k < i ==> entries[deps[k]].status.Pass?
            invariant bad >= 0
            modifies {}
          {
            if deps[i] !in entries {
              return Err(UnknownMilestone);
            }
            if entries[deps[i]].status != Pass {
              bad := bad + 1;
            }
          }
          if bad > 0 {
            return Err(DependenciesNotPass);
          }
          e := e.(status := InProgress, startedAt := Some(c.at));
          e := e.(submittedAt := None);
        case Submit =>
          if e.status != InProgress {
            return Err(MustBeInProgress);
          }
          e := e.(status := AwaitingApproval, submittedAt := Some(c.at));
        case Approve =>
          if e.status != AwaitingApproval {
            return Err(MustAwaitApproval);
          }
          e := e.(status := Pass, approvedAt := Some(c.at));
        case Reject =>
          if e.status != InProgress && e.status != AwaitingApproval {
            return Err(CannotReject);
          }
          e := e.(status := Rejected, rejectedAt := Some(c.at));
      }
      e := e.(history := e.history + [Note(c.at, c.action, c.who, c.remark)]);
      entries := entries[c.milestone := e];
      return Ok(());
    }
  }

  // ----- runs -----

  /** The state after a command, and the milestones approved so far in order. */
  datatype World = World(entries: Entries, approved: seq<Milestone>)

  function Step(contract: Contract, w: World, c: Command): World {
    match Applied(contract, w.entries, c)
    case Err(_) => w
    case Ok(after) => World(after, if c.action.Approve? then w.approved + [c.milestone] else w.approved)
  }

  function Run(contract: Contract, commands: seq<Command>): World {
    if commands == [] then World(Initial(contract), [])
    else Step(contract, Run(contract, commands[..|commands| - 1]), commands[|commands| - 1])
  }

  /** The status automaton: none for an action that its state does not allow. */
  function Next(status: Status, action: Action): Option<Status> {
    match (status, action)
    case (NotStarted, Start) => Some(InProgress)
    case (Rejected, Start) => Some(InProgress)
    case (InProgress, Submit) => Some(AwaitingApproval)
    case (AwaitingApproval, Approve) => Some(Pass)
    case (InProgress, Reject) => Some(Rejected)
    case (AwaitingApproval, Reject) => Some(Rejected)
    case _ => None
  }

  /** Replaying a history from NOT_STARTED. */
  function Replayed(history: seq<Note>): Option<Status> {
    if history == [] then Some(NotStarted)
    else match Replayed(history[..|history| - 1])
      case None => None
      case Some(status) => Next(status, history[|history| - 1].action)
  }

  predicate EntryOk(contract: Contract, w: World, m: Milestone)
    requires m in contract && m in w.entries
  {
    && Replayed(w.entries[m].history) == Some(w.entries[m].status)
    && (!w.entries[m].status.NotStarted? ==> DependenciesPass(w.entries, contract[m]))
    && (w.entries[m].status.Pass? <==> m in w.approved)
  }

  /** Every approved milestone is approved once, after all its dependencies. */
  predicate InOrder(contract: Contract, approved: seq<Milestone>) {
    && (forall i, j :: 0 <= i < j < |approved| ==> approved[i] != approved[j])
    && (forall i :: 0 <= i < |approved| ==> approved[i] in contract && DependenciesBefore(contract, approved, i))
  }

  predicate DependenciesBefore(contract: Contract, approved: seq<Milestone>, i: nat)
    requires i < |approved| && approved[i] in contract
  {
    forall k :: 0 <= k < |contract[approved[i]]| ==> contract[approved[i]][k] in approved[..i]
  }

  predicate Inv(contract: Contract, w: World) {
    && w.entries.Keys == contract.Keys
    && (forall m :: m in contract ==> EntryOk(contract, w, m))
    && InOrder(contract, w.approved)
  }

  lemma ReplayedNext(history: seq<Note>, note: Note)
    ensures Replayed(history + [note])
      == match Replayed(history) case None => None case Some(status) => Next(status, note.action)
  {
    assert (history + [note])[..|history|] == history;
  }

  /** What a command that is accepted does to its milestone. */
  lemma AppliedIsNext(contract: Contract, entries: Entries, c: Command)
    requires Applied(contract, entries, c).Ok?
    ensures c.milestone in entries && c.milestone in contract
    ensures var after := Applied(contract, entries, c).value;
      && after.Keys == entries.Keys
      && Next(entries[c.milestone].status, c.action) == Some(after[c.milestone].status)
      && after[c.milestone].history == entries[c.milestone].history + [Note(c.at, c.action, c.who, c.remark)]
      && (forall m :: m in entries && m != c.milestone ==> after[m] == entries[m])
      && (c.action.Start? ==> DependenciesPass(entries, contract[c.milestone]))
  {
  }

  /** PASS is absorbing, so dependencies that passed still do. */
  lemma PassStays(contract: Contract, entries: Entries, c: Command, deps: seq<Milestone>)
    requires Applied(contract, entries, c).Ok? && DependenciesPass(entries, deps)
    ensures DependenciesPass(Applied(contract, entries, c).value, deps)
  {
    AppliedIsNext(contract, entries, c);
    hide Applied;
  }

  lemma StepKeeps(contract: Contract, w: World, c: Command)
    requires Inv(contract, w)
    ensures Inv(contract, Step(contract, w, c))
  {
    if Applied(contract, w.entries, c).Ok? {
      AppliedIsNext(contract, w.entries, c);
      hide Applied, Replayed;
      var v := Step(contract, w, c);
      var m := c.milestone;
      assert EntryOk(contract, w, m);
      ReplayedNext(w.entries[m].history, Note(c.at, c.action, c.who, c.remark));
      ApprovedGrows(contract, w, c);
      forall n | n in contract ensures EntryOk(contract, v, n) {
        assert EntryOk(contract, w, n);
        if DependenciesPass(w.entries, contract[n]) {
          PassStays(contract, w.entries, c, contract[n]);
        }
      }
    }
  }

  lemma ApprovedGrows(contract: Contract, w: World, c: Command)
    requires Inv(contract, w) && Applied(contract, w.entries, c).Ok?
    ensures InOrder(contract, Step(contract, w, c).approved)
  {
    AppliedIsNext(contract, w.entries, c);
    hide Applied, Replayed;
    var m := c.milestone;
    assert EntryOk(contract, w, m);
    if c.action.Approve? {
      var approved := w.approved + [m];
      assert approved[..|w.approved|] == w.approved;
      forall k | 0 <= k < |contract[m]| ensures contract[m][k] in w.approved {
        assert EntryOk(contract, w, contract[m][k]);
      }
      forall i | 0 <= i < |approved| ensures approved[i] in contract && DependenciesBefore(contract, approved, i) {
        if i < |w.approved| {
          assert DependenciesBefore(contract, w.approved, i);
          assert approved[..i] == w.approved[..i];
        }
      }
    }
  }

  lemma {:induction false} RunKeeps(contract: Contract, commands: seq<Command>)
    ensures Inv(contract, Run(contract, commands))
  {
    if commands != [] {
      RunKeeps(contract, commands[..|commands| - 1]);
      hide Inv, Step;
      StepKeeps(contract, Run(contract, commands[..|commands| - 1]), commands[|commands| - 1]);
    }
  }

  // ----- paths in the dependency graph -----

  /** Each milestone of the path depends on the next one. */
  predicate IsPath(contract: Contract, path: seq<Milestone>) {
    && path != []
    && forall i :: 0 <= i < |path| - 1 ==> path[i] in contract && path[i + 1] in contract[path[i]]
  }

  lemma {:induction false} PathPasses(contract: Contract, w: World, path: seq<Milestone>)
    requires Inv(contract, w) && IsPath(contract, path) && |path| > 1
    requires path[0] in w.entries && !w.entries[path[0]].status.NotStarted?
    ensures path[|path| - 1] in w.entries && w.entries[path[|path| - 1]].status.Pass?
    decreases |path|
  {
    assert EntryOk(contract, w, path[0]);
    assert path[1] in contract[path[0]];
    if |path| > 2 {
      var rest := path[1..];
      forall i | 0 <= i < |rest| - 1 ensures rest[i] in contract && rest[i + 1] in contract[rest[i]] {
        assert rest[i] == path[i + 1] && rest[i + 1] == path[i + 2];
      }
      PathPasses(contract, w, rest);
    }
  }

  /** Every milestone that has ever started has all its transitive dependencies PASS. */
  lemma StartedMeansAllPass(contract: Contract, commands: seq<Command>, path: seq<Milestone>)
    requires IsPath(contract, path) && |path| > 1
    requires path[0] in Run(contract, commands).entries && !Run(contract, commands).entries[path[0]].status.NotStarted?
    ensures var w := Run(contract, commands);
      path[|path| - 1] in w.entries && w.entries[path[|path| - 1]].status.Pass?
  {
    hide Inv, Run;
    RunKeeps(contract, commands);
    PathPasses(contract, Run(contract, commands), path);
  }

  /** Approvals form a topological order: each milestone is approved at most once, and
      strictly after everything it depends on. */
  lemma ApprovalsAreTopological(contract: Contract, commands: seq<Command>)
    ensures InOrder(contract, Run(contract, commands).approved)
    ensures forall m :: m in Run(contract, commands).approved <==>
      m in Run(contract, commands).entries && Run(contract, commands).entries[m].status.Pass?
  {
    RunKeeps(contract, commands);
    hide Run;
    var w := Run(contract, commands);
    forall m | m in w.approved ensures m in w.entries {
      var i :| 0 <= i < |w.approved| && w.approved[i] == m;
    }
    forall m ensures m in w.approved <==> m in w.entries && w.entries[m].status.Pass? {
      if m in w.entries {
        assert EntryOk(contract, w, m);
      }
    }
  }

  lemma {:induction false} PathDescends(contract: Contract, approved: seq<Milestone>, path: seq<Milestone>, i: nat) returns (j: nat)
    requires InOrder(contract, approved) && IsPath(contract, path) && i < |approved| && approved[i] == path[0]
    ensures j < |approved| && approved[j] == path[|path| - 1] && (|path| > 1 ==> j < i)
    decreases |path|
  {
    j := i;
    if |path| > 1 {
      assert DependenciesBefore(contract, approved, i);
      assert path[1] in contract[path[0]];
      var k :| 0 <= k < i && approved[k] == path[1];
      var rest := path[1..];
      forall n | 0 <= n < |rest| - 1 ensures rest[n] in contract && rest[n + 1] in contract[rest[n]] {
        assert rest[n] == path[n + 1] && rest[n + 1] == path[n + 2];
      }
      j := PathDescends(contract, approved, rest, k);
    }
  }

  /** A milestone on a dependency cycle never leaves NOT_STARTED. */
  lemma CyclesNeverStart(contract: Contract, commands: seq<Command>, path: seq<Milestone>)
    requires IsPath(contract, path) && |path| > 1 && path[0] == path[|path| - 1]
    ensures path[0] in Run(contract, commands).entries
    ensures Run(contract, commands).entries[path[0]].status.NotStarted?
  {
    RunKeeps(contract, commands);
    hide Run;
    var w := Run(contract, commands);
    assert path[0] in contract && path[1] in contract[path[0]];
    if !w.entries[path[0]].status.NotStarted? {
      PathPasses(contract, w, path);
      assert EntryOk(contract, w, path[0]);
      var i :| 0 <= i < |w.approved| && w.approved[i] == path[0];
      var j := PathDescends(contract, w.approved, path, i);
      assert false;
    }
  }

  /** PASS is absorbing: a milestone that passed keeps its entry whatever commands follow. */
  lemma {:induction false} PassIsAbsorbing(contract: Contract, early: seq<Command>, late: seq<Command>, m: Milestone)
    requires m in Run(contract, early).entries && Run(contract, early).entries[m].status.Pass?
    ensures m in Run(contract, early + late).entries
    ensures Run(contract, early + late).entries[m] == Run(contract, early).entries[m]
    decreases |late|
  {
    if late == [] {
      assert early + late == early;
    } else {
      var last := late[|late| - 1];
      assert (early + late)[..|early + late| - 1] == early + late[..|late| - 1];
      PassIsAbsorbing(contract, early, late[..|late| - 1], m);
      var w := Run(contract, early + late[..|late| - 1]);
      if Applied(contract, w.entries, last).Ok? {
        AppliedIsNext(contract, w.entries, last);
      }
    }
  }

  /** Replaying a milestone's history from the beginning yields its status, every recorded
      action having been allowed. */
  lemma HistoryYieldsStatus(contract: Contract, commands: seq<Command>, m: Milestone)
    requires m in Run(contract, commands).entries
    ensures Replayed(Run(contract, commands).entries[m].history) == Some(Run(contract, commands).entries[m].status)
  {
    RunKeeps(contract, commands);
    hide Run, Replayed;
    assert EntryOk(contract, Run(contract, commands), m);
  }

  /** When the last action of this kind was taken. */
  function LastAt(history: seq<Note>, action: Action): Option<Moment> {
    if history == [] then None
    else if history[|history| - 1].action == action then Some(history[|history| - 1].at)
    else LastAt(history[..|history| - 1], action)
  }

  /** When the work since the last start was submitted. */
  function SubmittedSince(history: seq<Note>): Option<Moment> {
    if history == [] then None
    else match history[|history| - 1].action
      case Submit => Some(history[|history| - 1].at)
      case Start => None
      case _ => SubmittedSince(history[..|history| - 1])
  }

  predicate Stamped(e: Entry) {
    && e.startedAt == LastAt(e.history, Start) && e.approvedAt == LastAt(e.history, Approve)
    && e.rejectedAt == LastAt(e.history, Reject) && e.submittedAt == SubmittedSince(e.history)
  }

  lemma AppliedIsStamped(contract: Contract, entries: Entries, c: Command, m: Milestone)
    requires Applied(contract, entries, c).Ok? && m in entries && Stamped(entries[m])
    ensures m in Applied(contract, entries, c).value && Stamped(Applied(contract, entries, c).value[m])
  {
    hide DependenciesKnown, DependenciesPass;
    if m == c.milestone {
      var after := Applied(contract, entries, c).value[m];
      assert after.history[..|after.history| - 1] == entries[m].history;
    }
  }

  /** Over every run the stamps of a milestone are those of its history: its last start, approval
      and rejection, and the submission since its last start. */
  lemma {:induction false} StampsAreTheHistory(contract: Contract, commands: seq<Command>, m: Milestone)
    requires m in Run(contract, commands).entries
    ensures Stamped(Run(contract, commands).entries[m])
  {
    hide Applied, Stamped;
    if commands == [] {
      assert Stamped(FRESH) by { NothingStamped(); }
    } else {
      var early := commands[..|commands| - 1];
      RunKeeps(contract, early);
      RunKeeps(contract, commands);
      assert m in Run(contract, early).entries;
      StampsAreTheHistory(contract, early, m);
      if Applied(contract, Run(contract, early).entries, commands[|commands| - 1]).Ok? {
        AppliedIsStamped(contract, Run(contract, early).entries, commands[|commands| - 1], m);
      }
    }
  }

  lemma NothingStamped()
    ensures Stamped(FRESH)
  {
  }

  /** A milestone can be started exactly when it may start and everything below it passed;
      and then nothing but its own entry changes. */
  lemma StartableIff(contract: Contract, commands: seq<Command>, c: Command)
    requires c.action.Start? && c.milestone in contract
    ensures var w := Run(contract, commands);
      && c.milestone in w.entries
      && (Applied(contract, w.entries, c).Ok? <==>
            && (w.entries[c.milestone].status.NotStarted? || w.entries[c.milestone].status.Rejected?)
            && forall k :: 0 <= k < |contract[c.milestone]| ==> contract[c.milestone][k] in w.approved)
  {
    RunKeeps(contract, commands);
    hide Run, Replayed;
    var w := Run(contract, commands);
    forall m | m in w.approved ensures m in w.entries {
      var i :| 0 <= i < |w.approved| && w.approved[i] == m;
    }
    forall m | m in w.entries ensures w.entries[m].status.Pass? <==> m in w.approved {
      assert EntryOk(contract, w, m);
    }
  }
}
