/** What the two auditors of one database say of a project after any commands, and recovery of
    ordinary and lookup runs in one transaction. */
module ProjectAudit {
  import opened Wrappers
  import opened RunVocabulary
  import opened RunCommands
  import opened RunInvariants
  import opened RunStore
  import opened RunTheorems
  import opened LookupChain
  import opened LookupInvariants
  import opened LookupAudit
  import opened LookupTheorems
  import opened LookupLaws
  import opened LookupVerdict
  import opened ProjectStore

  /** Both passes over the database: the receipts of every run and the rows of every chain. */
  ghost predicate Accepted(h: Host, p: Project)
    requires Linked(p)
  {
    AuditStore(p.store) && forall id :: id in p.lookups ==> AuditChain(h, ChainOf(p, id))
  }

  // ----- One chain -----

  /** The part seals the chain with one of the steps that fail the audit. */
  ghost predicate SealsRefused(h: Host, ch: Chain, part: seq<RunChainCommand>) {
    part != [] && Seals(h, ch, part[0]) && Refused(h, ch, part[0])
  }

  lemma ActiveAccepted(h: Host, ch: Chain)
    requires Sound(h, ch) && ch.record.run.status.Active()
    ensures BothAccept(h, ch)
  {
    ActiveChainsPassAudit(h, ch);
    ReceiptVerdict(h, ch);
    hide Sound, AuditChain, AuditRun;
  }

  /** Once refused a chain stays refused, and only a refused seal makes it so. */
  lemma PartVerdict(h: Host, ch: Chain, part: seq<RunChainCommand>)
    requires Sound(h, ch) && |part| <= 1
    ensures BothAccept(h, PartStep(h, ch, part)) <==> BothAccept(h, ch) && !SealsRefused(h, ch, part)
  {
    hide Sound, BothAccept, ChainStep, Refused;
    if part != [] {
      if ch.record.run.status.Terminal() {
        SealedChainIsFrozen(h, ch, part[0]);
      } else {
        ActiveAccepted(h, ch);
        if Seals(h, ch, part[0]) {
          SealingStepVerdict(h, ch, part[0]);
        } else {
          PartKeeps(h, ch, part);
          ActiveAccepted(h, PartStep(h, ch, part));
        }
      }
    }
  }

  // ----- One command of the project -----

  /** No lookup run is sealed by a step that fails the audit. */
  ghost predicate Clean(h: Host, p: Project, c: ProjectInput)
    requires Linked(p)
  {
    forall id :: id in p.lookups ==> !SealsRefused(h, ChainOf(p, id), Part(p, c, id))
  }

  /** The auditors accept a project exactly when both accept every chain of it: ordinary runs
      never fail. */
  lemma AcceptedByChains(h: Host, p: Project)
    requires ProjectInv(h, p)
    ensures Accepted(h, p) <==> forall id :: id in p.lookups ==> BothAccept(h, ChainOf(p, id))
  {
    hide Good, RowsSound, Progress, AuditRun, AuditChain, Indexed, OperationsUnique;
    forall id | id in p.store.runs && id !in p.lookups
      ensures AuditRun(p.store.runs[id])
    {
      GoodRunsPassAudit(p.store.runs[id]);
    }
  }

  lemma ChainVerdict(h: Host, p: Project, c: ProjectInput, id: string)
    requires ProjectInv(h, p) && id in p.lookups
    ensures StepsPart(h, p, c, id)
    ensures BothAccept(h, ChainOf(ProjectStep(h, p, c).project, id))
       <==> BothAccept(h, ChainOf(p, id)) && !SealsRefused(h, ChainOf(p, id), Part(p, c, id))
  {
    hide Sound, BothAccept, ProjectStep, Part, PartStep, Inv, SealsRefused;
    EveryPart(h, p, c, id);
    PartVerdict(h, ChainOf(p, id), Part(p, c, id));
  }

  lemma NewChainAccepted(h: Host, p: Project, c: ProjectInput, id: string)
    requires ProjectInv(h, p) && id !in p.lookups && id in ProjectStep(h, p, c).project.lookups
    ensures id in ProjectStep(h, p, c).project.store.runs
    ensures BothAccept(h, ChainOf(ProjectStep(h, p, c).project, id))
  {
    NewRowsAreStarted(h, p, c, id);
    hide ProjectInv, ProjectStep, Sound, BothAccept;
    var ch := ChainOf(ProjectStep(h, p, c).project, id);
    StartedSound(h, ch, c.start, c.root, c.frozen);
    ActiveAccepted(h, ch);
  }

  lemma StepVerdict(h: Host, p: Project, c: ProjectInput)
    requires ProjectInv(h, p)
    ensures ProjectInv(h, ProjectStep(h, p, c).project)
    ensures Accepted(h, ProjectStep(h, p, c).project) <==> Accepted(h, p) && Clean(h, p, c)
  {
    hide Inv, ChainsSound, Accepted, BothAccept, ProjectStep, Part, PartStep, SealsRefused, Seals, Sound;
    ProjectStepKeeps(h, p, c);
    var next := ProjectStep(h, p, c).project;
    AcceptedByChains(h, p);
    AcceptedByChains(h, next);
    forall id | id in next.lookups
      ensures BothAccept(h, ChainOf(next, id)) <==>
        (id in p.lookups ==> BothAccept(h, ChainOf(p, id)) && !SealsRefused(h, ChainOf(p, id), Part(p, c, id)))
    {
      if id in p.lookups { ChainVerdict(h, p, c, id); } else { NewChainAccepted(h, p, c, id); }
    }
    forall id | id in p.lookups
      ensures id in next.lookups
    {
      ChainVerdict(h, p, c, id);
    }
  }

  // ----- Whole histories -----

  ghost predicate EveryStepClean(h: Host, p: Project, commands: seq<ProjectInput>)
    requires ProjectInv(h, p)
    decreases |commands|
  {
    commands == []
    || (Clean(h, p, commands[0])
        && (ProjectStepKeeps(h, p, commands[0]);
            EveryStepClean(h, ProjectStep(h, p, commands[0]).project, commands[1..])))
  }

  /** The project's verdict: after any commands on any runs both auditors accept the database
      exactly when they did before and no step sealed a lookup run in a refused way. */
  lemma {:induction false} ProjectVerdict(h: Host, p: Project, commands: seq<ProjectInput>)
    requires ProjectInv(h, p)
    ensures ProjectInv(h, RunProject(h, p, commands))
    ensures Accepted(h, RunProject(h, p, commands)) <==> Accepted(h, p) && EveryStepClean(h, p, commands)
    decreases |commands|
  {
    hide ProjectInv, Linked, Accepted, Clean, ProjectStep;
    if commands != [] {
      StepVerdict(h, p, commands[0]);
      ProjectVerdict(h, ProjectStep(h, p, commands[0]).project, commands[1..]);
    }
  }

  /** Every project that can be reached from an empty one. */
  lemma ReachableProjectVerdict(h: Host, identity: Access, commands: seq<ProjectInput>)
    ensures ProjectInv(h, NewProject(identity)) && ProjectInv(h, RunProject(h, NewProject(identity), commands))
    ensures Accepted(h, RunProject(h, NewProject(identity), commands))
       <==> EveryStepClean(h, NewProject(identity), commands)
  {
    NewProjectHolds(h, identity);
    assert Accepted(h, NewProject(identity));
    ProjectVerdict(h, NewProject(identity), commands);
  }

  // ----- Recovery of both kinds of run -----

  lemma LookupsAreRecoverable(h: Host, ch: Chain)
    requires Sound(h, ch)
    ensures Recoverable(ch.record)
  {
    hide RowsSound, Progress, TerminalShape, ResultShape;
  }

  /** Recovery of ordinary and lookup runs is one transaction: it succeeds exactly when no active
      ordinary run has spent its recovery id or its last sequence; then every run is sealed and no
      invocation of a run it sealed is left open. Otherwise nothing changes, and one ordinary run
      leaves the invocations of every lookup run as open as they were. */
  lemma RecoverProject(h: Host, p: Project)
    requires ProjectInv(h, p)
    ensures var reply := ProjectStep(h, p, OfRun(Recover));
            (reply.refusal.None? <==>
              forall id :: id in p.store.runs && !p.store.runs[id].run.lookup ==> Recoverable(p.store.runs[id]))
            && (reply.refusal.Some? ==> reply.project == p)
            && (reply.refusal.None? ==>
                  forall id :: id in p.store.runs ==>
                    id in reply.project.store.runs && reply.project.store.runs[id].run.status.Terminal())
            && (reply.refusal.None? ==>
                  forall id :: id in p.lookups && p.store.runs[id].run.status.Active() ==>
                    RecoveredWhole(reply.project, id))
  {
    hide Good, RowsSound, Progress, Recoverable, Recovered, OperationsUnique, MarkStopped;
    RecoverSucceedsIff(p.store);
    forall id | id in p.lookups ensures Recoverable(p.store.runs[id]) {
      LookupsAreRecoverable(h, ChainOf(p, id));
    }
    var reply := ProjectStep(h, p, OfRun(Recover));
    if reply.refusal.None? {
      forall id | id in p.lookups && p.store.runs[id].run.status.Active()
        ensures RecoveredWhole(reply.project, id)
      {
        RecoveredChain(h, p, id);
      }
    }
  }

  ghost predicate RecoveredWhole(p: Project, id: string) {
    && id in p.store.runs && id in p.lookups
    && p.store.runs[id].run.status == Interrupted && NothingOpen(ChainOf(p, id))
  }

  lemma RecoveredChain(h: Host, p: Project, id: string)
    requires ProjectInv(h, p) && id in p.lookups && p.store.runs[id].run.status.Active()
    requires OfRunStep(p, Recover).refusal.None?
    ensures RecoveredWhole(OfRunStep(p, Recover).project, id)
  {
    hide Good, Sound, OperationsUnique, Indexed, RunsGood, ChainStep, Step, Reopen, NothingOpen, StoppedLookups;
    EveryPart(h, p, OfRun(Recover), id);
    assert Part(p, OfRun(Recover), id) == [ReopenProject];
    ReopenStepCloses(h, ChainOf(p, id));
  }

  lemma ReopenStepCloses(h: Host, ch: Chain)
    requires Sound(h, ch) && ch.record.run.status.Active()
    ensures var b := ChainStep(h, ch, ReopenProject).chain;
            b.record.run.status == Interrupted && NothingOpen(b)
  {
    hide Sound, Reopen, NothingOpen;
    ReopenCloses(h, ch);
  }
}
