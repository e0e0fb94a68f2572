/** The workflow routes of the server: the `activeFlows` registry behind the
    start, pause, resume, stop and status handlers, and the simulated agent
    roster and task list a started workflow receives. */
module ClaudeFlow {
  import opened Wrappers
  import opened Text

  // ---------------------------------------------------------------------
  // Agents
  // ---------------------------------------------------------------------

  /** The five agent types the rosters use. */
  datatype AgentType = Coordinator | Developer | Analyst | Researcher | Tester

  /** The type's name, as stored in the agent's `type` field. */
  function TypeName(t: AgentType): string
  {
    match t
    case Coordinator => "coordinator"
    case Developer => "developer"
    case Analyst => "analyst"
    case Researcher => "researcher"
    case Tester => "tester"
  }

  /** `getAgentCapabilities`: a lookup by type name, with `[]` for any other name. */
  function AgentCapabilities(agentType: string): (caps: seq<string>)
    ensures |caps| == 3 || caps == []
  {
    if agentType == "coordinator" then ["task-management", "delegation", "monitoring"]
    else if agentType == "developer" then ["coding", "debugging", "testing"]
    else if agentType == "analyst" then ["data-analysis", "pattern-recognition", "reporting"]
    else if agentType == "researcher" then ["information-gathering", "documentation", "validation"]
    else if agentType == "tester" then ["testing", "quality-assurance", "validation"]
    else []
  }

  /** Each of the five types has three capabilities, and the developer and the
      tester can both test. */
  lemma CapabilitiesOfEachType(t: AgentType)
    ensures |AgentCapabilities(TypeName(t))| == 3
    ensures t == Developer || t == Tester ==> "testing" in AgentCapabilities(TypeName(t))
  {
    match t
    case Coordinator =>
    case Developer => assert "developer" != "coordinator";
    case Analyst => assert "analyst" != "coordinator" && "analyst" != "developer";
    case Researcher =>
      assert "researcher" != "coordinator" && "researcher" != "developer" && "researcher" != "analyst";
    case Tester =>
      assert "tester" != "coordinator" && "tester" != "developer" && "tester" != "analyst" && "tester" != "researcher";
  }

  /** A name that is none of the five types gets no capabilities. */
  lemma UnknownTypeHasNoCapabilities(agentType: string)
    requires forall t: AgentType :: TypeName(t) != agentType
    ensures AgentCapabilities(agentType) == []
  {
    assert TypeName(Coordinator) != agentType && TypeName(Developer) != agentType;
    assert TypeName(Analyst) != agentType && TypeName(Researcher) != agentType && TypeName(Tester) != agentType;
  }

  /** The roster `generateAgents` uses for a mode (`mode` is None when the body has none). */
  function AgentTypes(mode: Option<string>): (types: seq<AgentType>)
    ensures |types| == if mode == Some("simple") then 1 else if mode == Some("team") then 4 else 5
  {
    if mode == Some("simple") then [Developer]
    else if mode == Some("team") then [Coordinator, Developer, Analyst, Tester]
    else [Coordinator, Developer, Analyst, Researcher, Tester]
  }

  datatype AgentStatus = Active

  datatype Agent = Agent(id: string, name: string, agentType: AgentType, status: AgentStatus, capabilities: seq<string>)

  /** `agent-${stamp}-${index}`, where `stamp` is the clock reading taken for
      this agent. */
  function AgentId(stamp: nat, index: nat): string
  {
    "agent-" + Decimal(stamp) + "-" + Decimal(index)
  }

  /** `<Type> Agent <index + 1>` */
  function AgentName(t: AgentType, index: nat): string
  {
    Capitalize(TypeName(t)) + " Agent " + Decimal(index + 1)
  }

  /** The agent pushed for position `index` of the roster, stamped `stamp`. */
  function MakeAgent(t: AgentType, index: nat, stamp: nat): Agent
  {
    Agent(AgentId(stamp, index), AgentName(t, index), t, Active, AgentCapabilities(TypeName(t)))
  }

  /** The roster of a mode, one agent per type, in order; `clock[i]` is the
      reading of `Date.now()` taken while building the agent at position `i`. */
  function AgentsFor(mode: Option<string>, clock: seq<nat>): (agents: seq<Agent>)
    requires |clock| == |AgentTypes(mode)|
    ensures |agents| == |AgentTypes(mode)|
    ensures forall i | 0 <= i < |agents| :: agents[i] == MakeAgent(AgentTypes(mode)[i], i, clock[i])
  {
    var types := AgentTypes(mode);
    seq(|types|, i requires 0 <= i < |types| => MakeAgent(types[i], i, clock[i]))
  }

  /** `generateAgents`: the `forEach`/`push` loop over the roster, reading the
      clock once per agent. */
  method GenerateAgents(mode: Option<string>, clock: seq<nat>) returns (agents: seq<Agent>)
    requires |clock| == |AgentTypes(mode)|
    ensures |agents| == |AgentTypes(mode)|
    ensures forall i | 0 <= i < |agents| :: agents[i] == MakeAgent(AgentTypes(mode)[i], i, clock[i])
  {
    var types := AgentTypes(mode);
    agents := [];
    var index := 0;
    while index < |types|
      invariant 0 <= index <= |types|
      invariant |agents| == index
      invariant forall i | 0 <= i < index :: agents[i] == MakeAgent(types[i], i, clock[i])
    {
      agents := agents + [MakeAgent(types[index], index, clock[index])];
      index := index + 1;
    }
  }

  /** Every generated agent is active, carries its type's three capabilities and
      is named after its type and its 1-based position; a simple workflow gets a
      single developer and a team workflow coordinator, developer, analyst and
      tester, in that order. */
  lemma RosterShape(mode: Option<string>, clock: seq<nat>)
    requires |clock| == |AgentTypes(mode)|
    ensures var agents := AgentsFor(mode, clock);
            && (forall i | 0 <= i < |agents| ::
                  && agents[i].status == Active
                  && |agents[i].capabilities| == 3
                  && agents[i].name == Capitalize(TypeName(agents[i].agentType)) + " Agent " + Decimal(i + 1))
            && (mode == Some("simple") ==> |agents| == 1 && agents[0].agentType == Developer)
            && (mode == Some("team") ==>
                  |agents| == 4 && agents[0].agentType == Coordinator && agents[1].agentType == Developer
                  && agents[2].agentType == Analyst && agents[3].agentType == Tester)
  {
    var agents := AgentsFor(mode, clock);
    forall i | 0 <= i < |agents|
      ensures |agents[i].capabilities| == 3
    {
      CapabilitiesOfEachType(agents[i].agentType);
    }
  }

  /** Equal decimal renderings come from equal numbers. */
  lemma DecimalInjective(m: nat, n: nat)
    requires Decimal(m) == Decimal(n)
    ensures m == n
  {
    DecimalRoundTrip(m);
    DecimalRoundTrip(n);
  }

  /** Where two dash-joined strings agree, a shorter head's dash falls inside the longer head. */
  lemma DashInside(a: string, b: string, c: string, d: string)
    requires |a| < |c| && a + "-" + b == c + "-" + d
    ensures c[|a|] == '-'
  {
    assert (a + "-" + b)[|a|] == '-';
    assert (c + "-" + d)[|a|] == c[|a|];
  }

  /** Joining two dash-free heads to tails with a dash can be undone: the
      first dash marks where the head ends. */
  lemma DashSplitUnique(a: string, b: string, c: string, d: string)
    requires forall k | 0 <= k < |a| :: a[k] != '-'
    requires forall k | 0 <= k < |c| :: c[k] != '-'
    requires a + "-" + b == c + "-" + d
    ensures a == c && b == d
  {
    var s := a + "-" + b;
    if |a| < |c| {
      DashInside(a, b, c, d);
      assert false;
    } else if |c| < |a| {
      DashInside(c, d, a, b);
      assert false;
    }
    assert a == s[..|a|];
    assert c == s[..|c|];
    assert b == s[|a| + 1..];
    assert d == s[|c| + 1..];
  }

  /** A decimal rendering holds no dash. */
  lemma DecimalDashFree(n: nat)
    ensures forall k | 0 <= k < |Decimal(n)| :: Decimal(n)[k] != '-'
  {
  }

  /** Equal strings with a common prefix have equal remainders. */
  lemma StripPrefix(p: string, x: string, y: string)
    requires p + x == p + y
    ensures x == y
  {
    assert x == (p + x)[|p|..];
    assert y == (p + y)[|p|..];
  }

  /** An agent id determines both the clock reading and the position it was
      built from. */
  lemma AgentIdInjective(s1: nat, i: nat, s2: nat, j: nat)
    requires AgentId(s1, i) == AgentId(s2, j)
    ensures s1 == s2 && i == j
  {
    var r1 := Decimal(s1) + "-" + Decimal(i);
    var r2 := Decimal(s2) + "-" + Decimal(j);
    assert AgentId(s1, i) == "agent-" + r1;
    assert AgentId(s2, j) == "agent-" + r2;
    StripPrefix("agent-", r1, r2);
    DecimalDashFree(s1);
    DecimalDashFree(s2);
    DashSplitUnique(Decimal(s1), Decimal(i), Decimal(s2), Decimal(j));
    DecimalInjective(s1, s2);
    DecimalInjective(i, j);
  }

  /** Agents at different positions have different ids, whatever the clock
      read for each of them. */
  lemma AgentIdsDistinct(s1: nat, i: nat, s2: nat, j: nat)
    requires i != j
    ensures AgentId(s1, i) != AgentId(s2, j)
  {
    if AgentId(s1, i) == AgentId(s2, j) {
      AgentIdInjective(s1, i, s2, j);
    }
  }

  // ---------------------------------------------------------------------
  // Tasks
  // ---------------------------------------------------------------------

  datatype TaskStatus = TaskRunning | Pending | Completed

  datatype Task = Task(id: string, name: string, status: TaskStatus, assignedTo: Option<string>)

  /** `agents[k]?.id` */
  function IdAt(agents: seq<Agent>, k: nat): (id: Option<string>)
    ensures id.Some? <==> k < |agents|
    ensures k < |agents| ==> id == Some(agents[k].id)
  {
    if k < |agents| then Some(agents[k].id) else None
  }

  /** The agent position each of the five tasks is assigned to. */
  function Assignee(k: nat): nat
    requires k < 5
  {
    [0, 1, 1, 3, 2][k]
  }

  /** `generateTasks`: the five fixed tasks, the first running. */
  function GenerateTasks(agents: seq<Agent>): (tasks: seq<Task>)
    ensures |tasks| == 5
    ensures forall k | 0 <= k < 5 :: tasks[k].id == "task-" + Decimal(k + 1)
    ensures forall k | 0 <= k < 5 :: (tasks[k].status == TaskRunning <==> k == 0)
    ensures forall k | 0 <= k < 5 :: (tasks[k].status == Pending <==> k != 0)
    ensures forall k | 0 <= k < 5 :: tasks[k].assignedTo == IdAt(agents, Assignee(k))
  {
    [ Task("task-1", "Analyze requirements", TaskRunning, IdAt(agents, 0)),
      Task("task-2", "Design architecture", Pending, IdAt(agents, 1)),
      Task("task-3", "Implement core functionality", Pending, IdAt(agents, 1)),
      Task("task-4", "Write tests", Pending, IdAt(agents, 3)),
      Task("task-5", "Document implementation", Pending, IdAt(agents, 2)) ]
  }

  /** In a simple workflow only the first task is assigned, to the developer;
      the other four have no agent at their fixed positions. */
  lemma SimpleTaskOwners(clock: seq<nat>)
    requires |clock| == 1
    ensures var agents := AgentsFor(Some("simple"), clock);
            var tasks := GenerateTasks(agents);
            && agents[0].agentType == Developer
            && tasks[0].assignedTo == Some(AgentId(clock[0], 0))
            && forall k | 1 <= k < 5 :: tasks[k].assignedTo == None
  {
  }

  /** In a team workflow the requirements go to the coordinator, design and
      implementation to the developer, the tests to the tester and the
      documentation to the analyst. */
  lemma TeamTaskOwners(clock: seq<nat>)
    requires |clock| == 4
    ensures var agents := AgentsFor(Some("team"), clock);
            var tasks := GenerateTasks(agents);
            && tasks[0].assignedTo == Some(agents[0].id) && agents[0].agentType == Coordinator
            && tasks[1].assignedTo == Some(agents[1].id) && agents[1].agentType == Developer
            && tasks[2].assignedTo == Some(agents[1].id)
            && tasks[3].assignedTo == Some(agents[3].id) && agents[3].agentType == Tester
            && tasks[4].assignedTo == Some(agents[2].id) && agents[2].agentType == Analyst
  {
  }

  /** In any other mode the same fixed positions hand "Write tests" to the
      researcher rather than to the tester. */
  lemma DefaultTaskOwners(mode: Option<string>, clock: seq<nat>)
    requires mode != Some("simple") && mode != Some("team") && |clock| == 5
    ensures var agents := AgentsFor(mode, clock);
            var tasks := GenerateTasks(agents);
            && tasks[3].assignedTo == Some(agents[3].id) && agents[3].agentType == Researcher
            && agents[4].agentType == Tester
  {
  }

  /** The agents of one roster have pairwise distinct ids, even when the clock
      advances between them. */
  lemma RosterIdsDistinct(mode: Option<string>, clock: seq<nat>)
    requires |clock| == |AgentTypes(mode)|
    ensures var agents := AgentsFor(mode, clock);
            forall i, j | 0 <= i < j < |agents| :: agents[i].id != agents[j].id
  {
    var agents := AgentsFor(mode, clock);
    forall i, j | 0 <= i < j < |agents|
      ensures agents[i].id != agents[j].id
    {
      AgentIdsDistinct(clock[i], i, clock[j], j);
    }
  }

  /** With five agents of distinct ids, no task goes to the fifth. */
  lemma FifthAgentIdle(agents: seq<Agent>)
    requires |agents| == 5 && forall i | 0 <= i < 4 :: agents[i].id != agents[4].id
    ensures forall k | 0 <= k < 5 :: GenerateTasks(agents)[k].assignedTo != Some(agents[4].id)
  {
  }

  /** In any other mode the tester, the fifth agent, is assigned no task at all. */
  lemma DefaultTesterIdle(mode: Option<string>, clock: seq<nat>)
    requires mode != Some("simple") && mode != Some("team") && |clock| == 5
    ensures var agents := AgentsFor(mode, clock);
            && agents[4].agentType == Tester
            && forall k | 0 <= k < 5 :: GenerateTasks(agents)[k].assignedTo != Some(agents[4].id)
  {
    RosterIdsDistinct(mode, clock);
    FifthAgentIdle(AgentsFor(mode, clock));
  }

  // ---------------------------------------------------------------------
  // Workflows
  // ---------------------------------------------------------------------

  datatype FlowStatus = Running | Paused | Stopped

  /** The fields of the `/start` request body; None for an absent field. */
  datatype StartBody = StartBody(objective: Option<string>, mode: Option<string>, projectPath: Option<string>)

  /** A registered workflow (`flowProcess`), mutated in place by the handlers
      and by the simulation timers. */
  class Flow {
    const id: string
    const objective: Option<string>
    const mode: Option<string>
    const projectPath: Option<string>
    const startTime: int
    var status: FlowStatus
    var agents: seq<Agent>
    var tasks: seq<Task>

    constructor (id: string, body: StartBody, startTime: int)
      ensures this.id == id && objective == body.objective && mode == body.mode
      ensures projectPath == body.projectPath && this.startTime == startTime
      ensures status == Running && agents == [] && tasks == []
    {
      this.id := id;
      objective := body.objective;
      mode := body.mode;
      projectPath := body.projectPath;
      this.startTime := startTime;
      status := Running;
      agents := [];
      tasks := [];
    }

    /** The one-second timer: the roster replaces `agents`; `clock` holds the
        reading taken for each agent. */
    method SpawnAgents(clock: seq<nat>)
      requires |clock| == |AgentTypes(mode)|
      modifies this
      ensures agents == AgentsFor(mode, clock)
      ensures status == old(status) && tasks == old(tasks)
    {
      agents := GenerateAgents(mode, clock);
    }

    /** The three-second timer: the task list, assigned from the current agents. */
    method CreateTasks()
      modifies this
      ensures tasks == GenerateTasks(old(agents))
      ensures status == old(status) && agents == old(agents)
    {
      tasks := GenerateTasks(agents);
    }

    /** A task-completion timer, for the task at `index`. */
    method CompleteTask(index: nat)
      requires index < |tasks|
      modifies this
      ensures tasks == old(tasks)[index := old(tasks)[index].(status := Completed)]
      ensures status == old(status) && agents == old(agents)
    {
      tasks := tasks[index := tasks[index].(status := Completed)];
    }
  }

  /** A request to the workflow routes. */
  datatype Command =
    | Start(taskId: string, body: Option<StartBody>)
    | Pause(taskId: string)
    | Resume(taskId: string)
    | Stop(taskId: string)
    | Status(taskId: string)

  /** The response: `{taskId, status: 'started'}`, `{status}`, the workflow
      itself, a 404 "Task not found" or a 500. */
  datatype Reply = Started(taskId: string) | Acknowledged(status: string) | Found(flowStatus: FlowStatus) | NotFound | ServerError

  /** The registry's effect on the workflow statuses and the response. */
  function FlowStep(flows: map<string, FlowStatus>, cmd: Command): (map<string, FlowStatus>, Reply)
  {
    match cmd
    case Start(id, body) =>
      if body.None? then (flows, ServerError) else (flows[id := Running], Started(id))
    case Pause(id) =>
      if id !in flows then (flows, NotFound) else (flows[id := Paused], Acknowledged("paused"))
    case Resume(id) =>
      if id !in flows then (flows, NotFound) else (flows[id := Running], Acknowledged("resumed"))
    case Stop(id) =>
      if id !in flows then (flows, NotFound) else (flows - {id}, Acknowledged("stopped"))
    case Status(id) =>
      if id !in flows then (flows, NotFound) else (flows, Found(flows[id]))
  }

  /** `activeFlows`, with the statuses of its workflows as a ghost view. */
  class FlowRegistry {
    var activeFlows: map<string, Flow>
    ghost var statuses: map<string, FlowStatus>

    /** Each workflow is registered under its own id, and `statuses` records
        every registered workflow's status. */
    ghost predicate Valid()
      reads this, activeFlows.Values
    {
      && statuses.Keys == activeFlows.Keys
      && forall id | id in activeFlows :: activeFlows[id].id == id && activeFlows[id].status == statuses[id]
    }

    /** The only workflow object a request for `taskId` may update. */
    function FlowAt(taskId: string): (s: set<Flow>)
      reads this
      ensures taskId in activeFlows ==> s == {activeFlows[taskId]}
      ensures taskId !in activeFlows ==> s == {}
    {
      if taskId in activeFlows then {activeFlows[taskId]} else {}
    }

    constructor ()
      ensures Valid() && activeFlows == map[] && statuses == map[]
    {
      activeFlows := map[];
      statuses := map[];
    }

    /** `POST /start`: registers a running workflow under `taskId` (the id the
        handler draws from the clock and a random suffix), or fails with 500
        when there is no body to destructure. */
    method Start(taskId: string, body: Option<StartBody>, now: int) returns (reply: Reply)
      requires Valid()
      modifies this
      ensures Valid()
      ensures (statuses, reply) == FlowStep(old(statuses), Command.Start(taskId, body))
      ensures body.None? ==> activeFlows == old(activeFlows)
      ensures body.Some? ==> && activeFlows.Keys == old(activeFlows.Keys) + {taskId}
                             && fresh(activeFlows[taskId])
                             && activeFlows[taskId].agents == [] && activeFlows[taskId].tasks == []
                             && activeFlows[taskId].startTime == now
                             && activeFlows[taskId].objective == body.value.objective
                             && activeFlows[taskId].mode == body.value.mode
                             && activeFlows[taskId].projectPath == body.value.projectPath
                             && forall id | id in activeFlows && id != taskId :: activeFlows[id] == old(activeFlows[id])
    {
      if body.None? {
        return ServerError;
      }
      var flow := new Flow(taskId, body.value, now);
      activeFlows := activeFlows[taskId := flow];
      statuses := statuses[taskId := Running];
      reply := Started(taskId);
    }

    /** `POST /pause/:taskId` */
    method Pause(taskId: string) returns (reply: Reply)
      requires Valid()
      modifies this, FlowAt(taskId)
      ensures Valid() && activeFlows == old(activeFlows)
      ensures (statuses, reply) == FlowStep(old(statuses), Command.Pause(taskId))
      // only the status of the addressed workflow changes; its roster and tasks stay
      ensures taskId in activeFlows ==> activeFlows[taskId].agents == old(activeFlows[taskId].agents)
                                        && activeFlows[taskId].tasks == old(activeFlows[taskId].tasks)
    {
      if taskId !in activeFlows {
        return NotFound;
      }
      var flow := activeFlows[taskId];
      flow.status := Paused;
      statuses := statuses[taskId := Paused];
      reply := Acknowledged("paused");
    }

    /** `POST /resume/:taskId` */
    method Resume(taskId: string) returns (reply: Reply)
      requires Valid()
      modifies this, FlowAt(taskId)
      ensures Valid() && activeFlows == old(activeFlows)
      ensures (statuses, reply) == FlowStep(old(statuses), Command.Resume(taskId))
      // only the status of the addressed workflow changes; its roster and tasks stay
      ensures taskId in activeFlows ==> activeFlows[taskId].agents == old(activeFlows[taskId].agents)
                                        && activeFlows[taskId].tasks == old(activeFlows[taskId].tasks)
    {
      if taskId !in activeFlows {
        return NotFound;
      }
      var flow := activeFlows[taskId];
      flow.status := Running;
      statuses := statuses[taskId := Running];
      reply := Acknowledged("resumed");
    }

    /** `POST /stop/:taskId`: marks the workflow stopped and unregisters it. */
    method Stop(taskId: string) returns (reply: Reply)
      requires Valid()
      modifies this, FlowAt(taskId)
      ensures Valid()
      ensures (statuses, reply) == FlowStep(old(statuses), Command.Stop(taskId))
      ensures activeFlows == old(activeFlows) - {taskId}
      // the removed workflow object is marked stopped and keeps its roster and tasks
      ensures taskId in old(activeFlows) ==>
                var flow := old(activeFlows[taskId]);
                flow.status == Stopped && flow.agents == old(flow.agents) && flow.tasks == old(flow.tasks)
    {
      if taskId !in activeFlows {
        return NotFound;
      }
      var flow := activeFlows[taskId];
      flow.status := Stopped;
      activeFlows := activeFlows - {taskId};
      statuses := statuses - {taskId};
      reply := Acknowledged("stopped");
    }

    /** `GET /status/:taskId`: the workflow itself, or 404. */
    method Status(taskId: string) returns (reply: Reply, flow: Option<Flow>)
      requires Valid()
      ensures (statuses, reply) == FlowStep(statuses, Command.Status(taskId))
      ensures flow.Some? <==> taskId in activeFlows
      ensures flow.Some? ==> flow.value == activeFlows[taskId]
    {
      if taskId !in activeFlows {
        return NotFound, None;
      }
      flow := Some(activeFlows[taskId]);
      reply := Found(activeFlows[taskId].status);
    }
  }

  // ---------------------------------------------------------------------
  // Properties of the registry
  // ---------------------------------------------------------------------

  /** Pause, resume, stop and status on an unknown id answer 404 and change nothing. */
  lemma UnknownIdNotFound(flows: map<string, FlowStatus>, cmd: Command)
    requires !cmd.Start? && cmd.taskId !in flows
    ensures FlowStep(flows, cmd) == (flows, NotFound)
  {
  }

  /** Pause and resume only relabel a registered workflow: the ids stay the same,
      and only the addressed workflow changes status. */
  lemma PauseResumeKeepIds(flows: map<string, FlowStatus>, cmd: Command)
    requires cmd.Pause? || cmd.Resume?
    ensures var after := FlowStep(flows, cmd).0;
            && after.Keys == flows.Keys
            && (cmd.taskId in flows ==> after[cmd.taskId] == if cmd.Pause? then Paused else Running)
            && forall id | id in flows && id != cmd.taskId :: after[id] == flows[id]
  {
  }

  /** A registered workflow is running or paused, never marked stopped. */
  lemma {:induction false} NeverStoppedWhileRegistered(flows: map<string, FlowStatus>, cmds: seq<Command>)
    requires forall id | id in flows :: flows[id] != Stopped
    ensures var after := Run(flows, cmds).0;
            forall id | id in after :: after[id] != Stopped
    decreases |cmds|
  {
    if cmds != [] {
      var next := FlowStep(flows, cmds[0]).0;
      assert forall id | id in next :: next[id] != Stopped;
      NeverStoppedWhileRegistered(next, cmds[1..]);
      assert Run(flows, cmds).0 == Run(next, cmds[1..]).0;
    }
  }

  /** A sequence of requests, with the responses in order. */
  function Run(flows: map<string, FlowStatus>, cmds: seq<Command>): (r: (map<string, FlowStatus>, seq<Reply>))
    ensures |r.1| == |cmds|
    decreases |cmds|
  {
    if cmds == [] then (flows, [])
    else
      var step := FlowStep(flows, cmds[0]);
      var rest := Run(step.0, cmds[1..]);
      (rest.0, [step.1] + rest.1)
  }

  /** Whether a request could register `id` again. */
  predicate Restarts(cmd: Command, id: string)
  {
    cmd.Start? && cmd.taskId == id
  }

  /** An unregistered id stays unregistered until a start reuses it, and every
      request addressed to it meanwhile answers 404. */
  lemma {:induction false} GoneUntilRestarted(flows: map<string, FlowStatus>, cmds: seq<Command>, id: string)
    requires id !in flows
    requires forall k | 0 <= k < |cmds| :: !Restarts(cmds[k], id)
    ensures id !in Run(flows, cmds).0
    ensures forall k | 0 <= k < |cmds| :: cmds[k].taskId == id ==> Run(flows, cmds).1[k] == NotFound
    decreases |cmds|
  {
    if cmds != [] {
      var step := FlowStep(flows, cmds[0]);
      GoneUntilRestarted(step.0, cmds[1..], id);
      assert Run(flows, cmds).0 == Run(step.0, cmds[1..]).0;
      assert Run(flows, cmds).1[0] == step.1;
      assert cmds[0].taskId == id ==> step.1 == NotFound;
      assert forall k | 1 <= k < |cmds| :: Run(flows, cmds).1[k] == Run(step.0, cmds[1..]).1[k - 1];
    }
  }

  /** After a successful stop, pause, resume, status and a second stop on that id
      all answer 404, until a start reuses the id. */
  lemma StopIsFinal(flows: map<string, FlowStatus>, id: string, later: seq<Command>)
    requires id in flows
    requires forall k | 0 <= k < |later| :: !Restarts(later[k], id)
    ensures var r := Run(flows, [Stop(id)] + later);
            && r.1[0] == Acknowledged("stopped")
            && id !in r.0
            && forall k | 0 <= k < |later| :: later[k].taskId == id ==> r.1[k + 1] == NotFound
  {
    var cmds := [Stop(id)] + later;
    assert cmds[1..] == later;
    GoneUntilRestarted(flows - {id}, later, id);
  }

  /** The lifecycle running, paused, running, stopped: each step is acknowledged
      and the id is unregistered at the end. */
  lemma Lifecycle(id: string, body: StartBody)
    ensures var r := Run(map[], [Start(id, Some(body)), Pause(id), Status(id), Resume(id), Status(id), Stop(id), Status(id)]);
            && r.1 == [Started(id), Acknowledged("paused"), Found(Paused), Acknowledged("resumed"),
                       Found(Running), Acknowledged("stopped"), NotFound]
            && r.0 == map[]
  {
    var running := map[id := Running];
    var paused := map[id := Paused];
    assert running - {id} == map[];
    assert running[id := Paused] == paused;
    assert paused[id := Running] == running;
    var t6 := [Status(id)];
    assert t6[1..] == [];
    assert Run(map[], []) == (map[], []);
    assert FlowStep(map[], t6[0]) == (map[], NotFound);
    assert Run(map[], t6).0 == map[];
    assert Run(map[], t6).1 == [NotFound];
    var t5 := [Stop(id)] + t6;
    assert t5[1..] == t6;
    assert FlowStep(running, t5[0]) == (map[], Acknowledged("stopped"));
    assert Run(running, t5).0 == map[];
    assert Run(running, t5).1 == [Acknowledged("stopped"), NotFound];
    var t4 := [Status(id)] + t5;
    assert t4[1..] == t5;
    assert FlowStep(running, t4[0]) == (running, Found(Running));
    assert Run(running, t4).0 == map[];
    assert Run(running, t4).1 == [Found(Running), Acknowledged("stopped"), NotFound];
    var t3 := [Resume(id)] + t4;
    assert t3[1..] == t4;
    assert FlowStep(paused, t3[0]) == (running, Acknowledged("resumed"));
    assert Run(paused, t3).0 == map[];
    assert Run(paused, t3).1 == [Acknowledged("resumed"), Found(Running), Acknowledged("stopped"), NotFound];
    var t2 := [Status(id)] + t3;
    assert t2[1..] == t3;
    assert FlowStep(paused, t2[0]) == (paused, Found(Paused));
    assert Run(paused, t2).0 == map[];
    assert Run(paused, t2).1 == [Found(Paused), Acknowledged("resumed"), Found(Running), Acknowledged("stopped"), NotFound];
    var t1 := [Pause(id)] + t2;
    assert t1[1..] == t2;
    assert FlowStep(running, t1[0]) == (paused, Acknowledged("paused"));
    assert Run(running, t1).0 == map[];
    assert Run(running, t1).1 == [Acknowledged("paused"), Found(Paused), Acknowledged("resumed"), Found(Running),
                                       Acknowledged("stopped"), NotFound];
    var tail := [Start(id, Some(body))] + t1;
    assert tail[1..] == t1;
    assert FlowStep(map[], tail[0]) == (running, Started(id));
    assert tail == [Start(id, Some(body)), Pause(id), Status(id), Resume(id), Status(id), Stop(id), Status(id)];
  }
}
