/** All runs of a project with the lookup rows of those that opted in: the commands of both
    protocols, and recovery of both kinds of run in one transaction. */
module ProjectStore {
  import opened Wrappers
  import opened Text
  import opened RunVocabulary
  import opened RunCommands
  import opened RunInvariants
  import opened RunStore
  import opened RunTheorems
  import opened LookupChain
  import opened LookupInvariants

  /** The lookup tables' rows of one run. */
  datatype LookupRows = LookupRows(
    invocations: map<nat, Invocation>,
    results: map<nat, LookupResult>,
    saved: map<string, ReadRow>)

  datatype Project = Project(store: Store, lookups: map<string, LookupRows>)

  datatype ProjectCommand =
    | StartLookup(start: Command, root: LookupPacket, frozen: Frozen)
    | OfRun(command: Command)
    | OfLookup(owner: Owner, request: ChainCommand)

  /** The packet a start compiled. */
  predicate CompiledRoot(root: LookupPacket, packet: Packet) {
    && root.completed == 0 && root.exchanges == []
    && root.packetId == packet.packetId && root.binding == packet.binding && root.inputBytes == packet.inputBytes
  }

  predicate Formed(c: ProjectCommand) {
    match c
    case StartLookup(start, root, _) => start.Start? && start.lookup && CompiledRoot(root, start.packet)
    case OfRun(command) => command.Start? ==> !command.lookup
    case OfLookup(_, request) => !request.ReopenProject? && !request.RunCommand?
  }

  type ProjectInput = c: ProjectCommand | Formed(c) witness OfRun(Recover)

  datatype ProjectReply = ProjectReply(project: Project, refusal: Option<Refusal>)

  function RunRefusal(e: Option<Error>): Option<Refusal> {
    if e.Some? then Some(Refusal.Run(e.value)) else None
  }

  function Marked(rows: LookupRows): LookupRows {
    rows.(invocations := MarkStopped(rows.invocations))
  }

  function ChainOf(p: Project, id: string): Chain
    requires id in p.store.runs && id in p.lookups
  {
    Chain(p.store.runs[id], p.lookups[id].invocations, p.lookups[id].results, p.lookups[id].saved)
  }

  function WithChain(p: Project, id: string, ch: Chain): Project {
    Project(p.store.(runs := p.store.runs[id := ch.record]),
            p.lookups[id := LookupRows(ch.invocations, ch.results, ch.saved)])
  }

  predicate ActiveRun(s: Store, id: string) {
    id in s.runs && s.runs[id].run.status.Active()
  }

  // ----- Commands -----

  function InitialRows(root: LookupPacket, frozen: Frozen): LookupRows {
    LookupRows(map[0 := Invocation(root, frozen, PreparedRow)], map[], map[])
  }

  /** A start inserts the root invocation beside the run it makes; a repeated one makes neither. */
  function StartLookupStep(p: Project, start: Command, root: LookupPacket, frozen: Frozen): ProjectReply
    requires start.Start?
  {
    var outcome := Step(p.store, start);
    if start.access == p.store.identity && !root.allowance.Valid() then ProjectReply(p, Some(InvalidLookupAllowance))
    else if start.freshId in outcome.store.runs && start.freshId !in p.store.runs then
      ProjectReply(Project(outcome.store, p.lookups[start.freshId := InitialRows(root, frozen)]), None)
    else ProjectReply(Project(outcome.store, p.lookups), RunRefusal(outcome.error))
  }

  /** The rows a successful run command leaves: recovery and interruption stop open invocations. */
  function StoppedLookups(p: Project, c: Command): map<string, LookupRows> {
    if c.Recover? then
      map id | id in p.lookups :: if ActiveRun(p.store, id) then Marked(p.lookups[id]) else p.lookups[id]
    else if c.InterruptActive? && c.runId in p.lookups && ActiveRun(p.store, c.runId) then
      p.lookups[c.runId := Marked(p.lookups[c.runId])]
    else p.lookups
  }

  function OfRunStep(p: Project, c: Command): ProjectReply {
    var outcome := Step(p.store, c);
    ProjectReply(Project(outcome.store, if outcome.error.None? then StoppedLookups(p, c) else p.lookups),
                 RunRefusal(outcome.error))
  }

  function OrdinalOf(c: ChainCommand): nat {
    match c
    case ClaimInvocation(ordinal, _, _) => ordinal
    case SettleInvocation(ordinal, _) => ordinal
    case AdvanceLookup(ordinal, _, _, _) => ordinal
    case _ => 0
  }

  /** The checks made before the run is read. */
  function LookupPrecheck(identity: Access, owner: Owner, c: ChainCommand): Option<Refusal> {
    if !OwnerIds(owner) then Some(Refusal.Run(InvalidRequest))
    else if c.SettleInvocation? && LookupShapeError(c.report).Some? then
      Some(Refusal.Run(LookupShapeError(c.report).value))
    else if Foreign(identity, owner) then Some(Refusal.Run(DiscussionProjectMismatch))
    else if OrdinalOf(c) >= MAX_LOOKUP_INVOCATIONS then Some(InvalidLookupCounter)
    else if c.HaltLookup? && (Trim(c.reason) == "" || Utf8Len(c.reason) > 4096) then Some(Refusal.Run(InvalidRequest))
    else None
  }

  function OfLookupStep(h: Host, p: Project, owner: Owner, c: RunChainCommand): ProjectReply {
    var refusal := LookupPrecheck(p.store.identity, owner, c);
    if refusal.Some? then ProjectReply(p, refusal)
    else if owner.runId !in p.store.runs then ProjectReply(p, Some(Refusal.Run(DiscussionRunNotFound)))
    else if p.store.runs[owner.runId].run.owner != owner then
      ProjectReply(p, Some(Refusal.Run(DiscussionProjectMismatch)))
    else if owner.runId !in p.lookups then ProjectReply(p, Some(LookupNotEnabled))
    else
      var reply := ChainStep(h, ChainOf(p, owner.runId), c);
      ProjectReply(WithChain(p, owner.runId, reply.chain), reply.refusal)
  }

  function ProjectStep(h: Host, p: Project, c: ProjectInput): ProjectReply {
    match c
    case StartLookup(start, root, frozen) => StartLookupStep(p, start, root, frozen)
    case OfRun(command) => OfRunStep(p, command)
    case OfLookup(owner, request) => OfLookupStep(h, p, owner, request)
  }

  function RunProject(h: Host, p: Project, commands: seq<ProjectInput>): Project
    decreases |commands|
  {
    if commands == [] then p else RunProject(h, ProjectStep(h, p, commands[0]).project, commands[1..])
  }

  function NewProject(identity: Access): Project {
    Project(Empty(identity), map[])
  }

  // ----- The invariant -----

  /** Exactly the runs that opted in have lookup rows. */
  predicate Linked(p: Project) {
    && p.lookups.Keys <= p.store.runs.Keys
    && forall id :: id in p.store.runs ==> (p.store.runs[id].run.lookup <==> id in p.lookups)
  }

  ghost predicate ChainsSound(h: Host, p: Project)
    requires Linked(p)
  {
    forall id :: id in p.lookups ==> Sound(h, ChainOf(p, id))
  }

  ghost predicate ProjectInv(h: Host, p: Project) {
    Inv(p.store) && Linked(p) && ChainsSound(h, p)
  }

  // ----- What one command of the project is to one chain -----

  /** The step of the chain's own protocol one project command makes on one run, if any. */
  function Part(p: Project, c: ProjectInput, id: string): (part: seq<RunChainCommand>)
    ensures |part| <= 1
  {
    match c
    case StartLookup(_, _, _) => []
    case OfRun(command) =>
      if command.Start? then []
      else if command.Recover? then if Step(p.store, command).error.None? then [ReopenProject] else []
      else if RunIdOf(command) == id && id in p.store.runs && Owns(p.store.runs[id], command) then
        [RunCommand(p.store.identity, command)]
      else []
    case OfLookup(owner, request) =>
      if owner.runId == id && id in p.store.runs && p.store.runs[id].run.owner == owner
         && LookupPrecheck(p.store.identity, owner, request).None?
      then [request] else []
  }

  /** Applying no command or one. */
  function PartStep(h: Host, ch: Chain, part: seq<RunChainCommand>): Chain
    requires |part| <= 1
  {
    if part == [] then ch else ChainStep(h, ch, part[0]).chain
  }

  /** The project command does to the chain's rows exactly what its part does. */
  ghost predicate StepsPart(h: Host, p: Project, c: ProjectInput, id: string) {
    var next := ProjectStep(h, p, c).project;
    && id in p.store.runs && id in p.lookups && id in next.store.runs && id in next.lookups
    && ChainOf(next, id) == PartStep(h, ChainOf(p, id), Part(p, c, id))
  }

  lemma StartParts(h: Host, p: Project, c: ProjectInput, id: string)
    requires Linked(p) && id in p.lookups && (c.StartLookup? || (c.OfRun? && c.command.Start?))
    ensures StepsPart(h, p, c, id)
  {
    hide Precheck, FindOperation, NewRecord, Allowance.Valid, RunStep, RecoverStep, OfLookupStep, MarkStopped;
  }

  lemma LookupParts(h: Host, p: Project, c: ProjectInput, id: string)
    requires Linked(p) && id in p.lookups && c.OfLookup?
    ensures StepsPart(h, p, c, id)
  {
    hide LookupPrecheck, ChainStep, MarkStopped;
  }

  lemma RunParts(h: Host, p: Project, c: ProjectInput, id: string)
    requires Linked(p) && id in p.lookups && c.OfRun? && !c.command.Start? && !c.command.Recover?
    ensures StepsPart(h, p, c, id)
  {
    hide Precheck, Apply, MarkStopped;
  }

  // ----- Recovery -----

  lemma {:induction false} RecoveredAt(s: Store, n: nat, id: string)
    requires Inv(s) && n <= |s.order| && Recovered(s, n).Ok? && id in s.runs
    ensures id in Recovered(s, n).value
    ensures id in s.order[..n] && s.runs[id].run.status.Active() ==>
      Interrupt(s.runs[id], "project_reopened", REOPENED_MESSAGE).Ok?
    ensures Recovered(s, n).value[id] ==
      if id in s.order[..n] && s.runs[id].run.status.Active()
        then Interrupt(s.runs[id], "project_reopened", REOPENED_MESSAGE).value
      else s.runs[id]
  {
    hide Good, Interrupt, OperationsUnique;
    if n > 0 {
      RecoveredAt(s, n - 1, id);
      assert s.order[..n] == s.order[..n - 1] + [s.order[n - 1]];
    }
  }

  /** Reopening a chain seals its run as recovery does. */
  lemma ReopenedAlike(ch: Chain)
    requires ch.record.run.status.Active() ==> Interrupt(ch.record, "project_reopened", REOPENED_MESSAGE).Ok?
    ensures Reopen(ch).chain
         == if ch.record.run.status.Active() then
              ch.(record := Interrupt(ch.record, "project_reopened", REOPENED_MESSAGE).value,
                  invocations := MarkStopped(ch.invocations))
            else ch
  {
    hide RunCommands.SealRun, MarkStopped;
  }

  lemma RecoverParts(h: Host, p: Project, c: ProjectInput, id: string)
    requires Linked(p) && Inv(p.store) && id in p.lookups && c == OfRun(Recover)
    ensures StepsPart(h, p, c, id)
  {
    hide Inv, Step, Recovered, Interrupt, Reopen, Claim, Settle, Advance, Halt, Plain, MarkStopped, OfLookupStep,
      StartLookupStep, LookupPrecheck;
    RecoverAnswers(p.store);
    if Recovered(p.store, |p.store.order|).Ok? {
      assert p.store.order[..|p.store.order|] == p.store.order;
      EveryRunOrdered(p.store);
      RecoveredAt(p.store, |p.store.order|, id);
      ReopenedAlike(ChainOf(p, id));
    }
  }

  lemma EveryPart(h: Host, p: Project, c: ProjectInput, id: string)
    requires Linked(p) && Inv(p.store) && id in p.lookups
    ensures StepsPart(h, p, c, id)
  {
    hide StepsPart, Inv, Linked;
    if c.StartLookup? || (c.OfRun? && c.command.Start?) {
      StartParts(h, p, c, id);
    } else if c.OfLookup? {
      LookupParts(h, p, c, id);
    } else if c == OfRun(Recover) {
      RecoverParts(h, p, c, id);
    } else {
      RunParts(h, p, c, id);
    }
  }

  // ----- What every command keeps -----

  lemma PartKeeps(h: Host, ch: Chain, part: seq<RunChainCommand>)
    requires Sound(h, ch) && |part| <= 1
    ensures ChainKeeps(h, ch, PartStep(h, ch, part))
  {
    hide Sound, ChainKeeps, ChainStep;
    if part == [] { RefusedKeeps(h, ch); } else { ChainStepKeeps(h, ch, part[0]); }
  }

  /** A step of a chain is a later state of its run, so the store keeps its invariant. */
  lemma StoreKeeps(h: Host, p: Project, c: ProjectInput)
    requires ProjectInv(h, p)
    ensures Inv(ProjectStep(h, p, c).project.store) && StoreEvolves(p.store, ProjectStep(h, p, c).project.store)
  {
    hide Good, Evolves, Step, ChainStep, Indexed, OperationsUnique, LookupPrecheck, RowsSound, Progress, MarkStopped;
    SelfEvolves(p.store);
    match c
    case StartLookup(start, _, _) => StepKeeps(p.store, start);
    case OfRun(command) => StepKeeps(p.store, command);
    case OfLookup(owner, request) =>
      if owner.runId in p.lookups {
        var ch := ChainOf(p, owner.runId);
        ChainStepKeeps(h, ch, request);
        UpdateKeeps(p.store, p.store.runs[owner.runId := ChainStep(h, ch, request).chain.record]);
      }
  }

  /** The run a start adds, with its root invocation, is a started chain. */
  lemma NewRowsAreStarted(h: Host, p: Project, c: ProjectInput, id: string)
    requires ProjectInv(h, p) && id !in p.lookups && id in ProjectStep(h, p, c).project.lookups
    ensures c.StartLookup? && id == c.start.freshId && id in ProjectStep(h, p, c).project.store.runs
    ensures Started(ChainOf(ProjectStep(h, p, c).project, id), c.start, c.root, c.frozen)
  {
    hide Inv, ChainsSound, FindOperation, ChainStep, LookupPrecheck, MarkStopped;
  }

  lemma RunsKept(s: Store, c: Command)
    requires Inv(s) && !c.Start?
    ensures Step(s, c).store.runs.Keys == s.runs.Keys
  {
    hide Good, Evolves, Precheck, Apply, Recovered, OperationsUnique;
    if c.Recover? && Recovered(s, |s.order|).Ok? {
      RecoveredKeeps(s, |s.order|);
    }
  }

  lemma RunLinked(h: Host, p: Project, c: ProjectInput)
    requires ProjectInv(h, p) && c.OfRun? && !c.command.Start?
    ensures ProjectStep(h, p, c).project.store.runs.Keys == p.store.runs.Keys
    ensures ProjectStep(h, p, c).project.lookups.Keys == p.lookups.Keys
  {
    hide Inv, ChainsSound, MarkStopped, Step;
    RunsKept(p.store, c.command);
  }

  /** Only a start changes which runs there are, and a run never turns into or out of a lookup. */
  lemma KeptLinked(p: Project, next: Project)
    requires Linked(p) && StoreEvolves(p.store, next.store)
    requires next.store.runs.Keys == p.store.runs.Keys && next.lookups.Keys == p.lookups.Keys
    ensures Linked(next)
  {
    forall id | id in next.store.runs
      ensures next.store.runs[id].run.lookup <==> id in next.lookups
    {
      assert Evolves(p.store.runs[id], next.store.runs[id]);
    }
  }

  lemma StartLookupLinked(p: Project, start: Command, root: LookupPacket, frozen: Frozen)
    requires Linked(p) && start.Start? && start.lookup
    ensures Linked(StartLookupStep(p, start, root, frozen).project)
  {
    hide Precheck, FindOperation, Allowance.Valid;
  }

  lemma StartRunLinked(p: Project, start: Command)
    requires Linked(p) && start.Start? && !start.lookup
    ensures Linked(OfRunStep(p, start).project)
  {
    hide Precheck, FindOperation;
  }

  lemma LookupLinked(h: Host, p: Project, owner: Owner, c: RunChainCommand)
    requires Linked(p) && StoreEvolves(p.store, OfLookupStep(h, p, owner, c).project.store)
    ensures Linked(OfLookupStep(h, p, owner, c).project)
  {
    hide LookupPrecheck, ChainStep, Evolves, Linked;
    var next := OfLookupStep(h, p, owner, c).project;
    if next != p {
      assert next.store.runs.Keys == p.store.runs.Keys && next.lookups.Keys == p.lookups.Keys;
      KeptLinked(p, next);
    }
  }

  lemma StepLinked(h: Host, p: Project, c: ProjectInput)
    requires ProjectInv(h, p)
    ensures Linked(ProjectStep(h, p, c).project)
  {
    StoreKeeps(h, p, c);
    hide Inv, Linked, ChainsSound, StoreEvolves, StartLookupStep, OfRunStep, OfLookupStep;
    match c
    case StartLookup(start, root, frozen) => StartLookupLinked(p, start, root, frozen);
    case OfRun(command) =>
      if command.Start? {
        StartRunLinked(p, command);
      } else {
        RunLinked(h, p, c);
        KeptLinked(p, ProjectStep(h, p, c).project);
      }
    case OfLookup(owner, request) => LookupLinked(h, p, owner, request);
  }

  /** Every command keeps the invariant of the store and of every chain. */
  lemma ProjectStepKeeps(h: Host, p: Project, c: ProjectInput)
    requires ProjectInv(h, p)
    ensures ProjectInv(h, ProjectStep(h, p, c).project)
  {
    var next := ProjectStep(h, p, c).project;
    StoreKeeps(h, p, c);
    StepLinked(h, p, c);
    forall id | id in next.lookups
      ensures Sound(h, ChainOf(next, id))
    {
      ChainAfter(h, p, c, id);
    }
  }

  lemma ChainAfter(h: Host, p: Project, c: ProjectInput, id: string)
    requires ProjectInv(h, p) && id in ProjectStep(h, p, c).project.lookups
    ensures id in ProjectStep(h, p, c).project.store.runs && Sound(h, ChainOf(ProjectStep(h, p, c).project, id))
  {
    hide Sound, Inv, ProjectStep, Started, Part, ChainStep;
    if id in p.lookups {
      EveryPart(h, p, c, id);
      PartKeeps(h, ChainOf(p, id), Part(p, c, id));
    } else {
      NewRowsAreStarted(h, p, c, id);
      StartedSound(h, ChainOf(ProjectStep(h, p, c).project, id), c.start, c.root, c.frozen);
    }
  }

  lemma NewProjectHolds(h: Host, identity: Access)
    ensures ProjectInv(h, NewProject(identity))
  {
  }

  lemma {:induction false} EveryProjectKeeps(h: Host, p: Project, commands: seq<ProjectInput>)
    requires ProjectInv(h, p)
    ensures ProjectInv(h, RunProject(h, p, commands))
    decreases |commands|
  {
    hide ProjectInv, ProjectStep;
    if commands != [] {
      ProjectStepKeeps(h, p, commands[0]);
      EveryProjectKeeps(h, ProjectStep(h, p, commands[0]).project, commands[1..]);
    }
  }
}
