/**
 * The relay server as a step system. Its handlers run one at a time on one thread, so each is one step.
 * S and G are whatever identifies sessions and group objects.
 */
module RelayModel {
  import opened Events

  /** A line the server sends. */
  datatype Message = State(data: Event) | Ok | VersionReply(version: int) | ErrorReply

  /** A line the server receives. */
  datatype Command = Join(group: string) | Post(data: Event) | Version | Other

  /** What ends a pending read. */
  datatype Input = Received(command: Command) | NotJson | Invalid | Failed

  /**
   * queue is the session's message queue and inFlight the writes handed to the socket and not completed.
   * sent lists every message ever queued, wire every message completely written.
   */
  datatype SessionView<G> = SessionView(
    group: Option<G>,
    queue: seq<Message>,
    inFlight: seq<Message>,
    sent: seq<Message>,
    wire: seq<Message>,
    reading: bool,
    writeFailed: bool)

  datatype ServerView<S, G> = ServerView(
    registry: map<string, G>,
    members: map<G, set<S>>,
    sessions: map<S, SessionView<G>>)

  /** made is the object a step creates if it has to create a group. */
  datatype ServerStep<S, G> =
    | Accept(session: S, made: G)
    | Read(session: S, input: Input, made: G)
    | WriteDone(session: S)
    | WriteError(session: S)

  const SERVER_VERSION := 10
  const DEFAULT_GROUP := "default"
  // No code assigns a group's name, so it is empty in every group.
  const GROUP_NAME := ""

  // ---------- One session's write queue ----------

  /** Queue a message; start writing unless a write is in progress. */
  ghost function Enqueue<G>(v: SessionView<G>, m: Message): SessionView<G> {
    v.(queue := v.queue + [m],
       sent := v.sent + [m],
       inFlight := if v.queue == [] then v.inFlight + [m] else v.inFlight)
  }

  /** The oldest outstanding write completes: the front is dropped and the next front, if any, is written. */
  ghost function Written<G>(v: SessionView<G>): SessionView<G>
    requires v.queue != [] && v.inFlight != []
  {
    var rest := v.queue[1..];
    v.(queue := rest,
       wire := v.wire + [v.inFlight[0]],
       inFlight := v.inFlight[1..] + (if rest == [] then [] else [rest[0]]))
  }

  ghost function WriteLost<G>(v: SessionView<G>): SessionView<G>
    requires v.inFlight != []
  {
    v.(inFlight := v.inFlight[1..], writeFailed := true)
  }

  /**
   * At most one write is outstanding and it is the queue's front; what was written, followed by the queue,
   * is what was sent. After a failure nothing is outstanding and the queue never empties again.
   */
  ghost predicate QueueOk<G>(v: SessionView<G>) {
    && v.wire + v.queue == v.sent
    && (v.writeFailed ==> v.queue != [])
    && v.inFlight == if v.writeFailed || v.queue == [] then [] else [v.queue[0]]
  }

  // ---------- Groups ----------

  ghost function GetGroup<S, G>(st: ServerView<S, G>, name: string, made: G): ServerView<S, G> {
    if name in st.registry then st
    else st.(registry := st.registry[name := made], members := st.members[made := {}])
  }

  ghost function JoinGroup<S, G>(st: ServerView<S, G>, g: G, s: S): ServerView<S, G>
    requires g in st.members
  {
    st.(members := st.members[g := st.members[g] + {s}])
  }

  /** A group that gets empty erases the registry entry of its name, which is never its own. */
  ghost function LeaveGroup<S, G>(st: ServerView<S, G>, g: G, s: S): ServerView<S, G>
    requires g in st.members
  {
    var left := st.members[g] - {s};
    st.(members := st.members[g := left], registry := if left == {} then st.registry - {GROUP_NAME} else st.registry)
  }

  ghost function Broadcast<S, G>(st: ServerView<S, G>, g: G, e: Event): ServerView<S, G>
    requires g in st.members
  {
    if GROUP_NAME == DEFAULT_GROUP then st
    else st.(sessions := map t | t in st.sessions ::
      if t in st.members[g] then Enqueue(st.sessions[t], State(e)) else st.sessions[t])
  }

  ghost function SendData<S, G>(st: ServerView<S, G>, s: S, m: Message): ServerView<S, G>
    requires s in st.sessions
  {
    st.(sessions := st.sessions[s := Enqueue(st.sessions[s], m)])
  }

  ghost function SetGroup<S, G>(st: ServerView<S, G>, s: S, g: G): ServerView<S, G>
    requires s in st.sessions
  {
    st.(sessions := st.sessions[s := st.sessions[s].(group := Some(g))])
  }

  ghost function StopReading<S, G>(st: ServerView<S, G>, s: S): ServerView<S, G>
    requires s in st.sessions
  {
    st.(sessions := st.sessions[s := st.sessions[s].(reading := false)])
  }

  // ---------- The handlers ----------

  ghost function NewSession<G>(): SessionView<G> {
    SessionView(None, [], [], [], [], true, false)
  }

  ghost function OnAccept<S, G>(st: ServerView<S, G>, s: S, made: G): ServerView<S, G>
    requires st.registry.Values <= st.members.Keys
  {
    var st1 := GetGroup(st, DEFAULT_GROUP, made);
    var g := st1.registry[DEFAULT_GROUP];
    JoinGroup(st1.(sessions := st1.sessions[s := NewSession().(group := Some(g))]), g, s)
  }

  ghost function OnJoin<S, G>(st: ServerView<S, G>, s: S, name: string, made: G): ServerView<S, G>
    requires RegistryOk(st) && s in st.sessions && st.sessions[s].group.Some? && st.sessions[s].group.value in st.members
  {
    var was := st.sessions[s].group.value;
    var st1 := GetGroup(st, name, made);
    var g := st1.registry[name];
    var st2 := JoinGroup(SetGroup(st1, s, g), g, s);
    var st3 := if was != g then LeaveGroup(st2, was, s) else st2;
    SendData(st3, s, Ok)
  }

  ghost function OnRead<S, G>(st: ServerView<S, G>, s: S, input: Input, made: G): ServerView<S, G>
    requires Inv(st) && s in st.sessions
  {
    var g := st.sessions[s].group.value;
    match input
    case Received(Join(name)) => OnJoin(st, s, name, made)
    case Received(Post(e)) => Broadcast(st, g, e)
    case Received(Version) => SendData(st, s, VersionReply(SERVER_VERSION))
    case Received(Other) => st
    case NotJson => StopReading(LeaveGroup(SendData(st, s, ErrorReply), g, s), s)
    case Invalid => StopReading(LeaveGroup(SendData(st, s, ErrorReply), g, s), s)
    case Failed => StopReading(LeaveGroup(st, g, s), s)
  }

  /** A group that has to be created is a new object. */
  ghost predicate CanMake<S, G>(st: ServerView<S, G>, name: string, made: G) {
    name !in st.registry ==> made !in st.members
  }

  ghost predicate ReadCanMake<S, G>(st: ServerView<S, G>, input: Input, made: G) {
    input.Received? && input.command.Join? ==> CanMake(st, input.command.group, made)
  }

  ghost predicate Enabled<S, G>(st: ServerView<S, G>, step: ServerStep<S, G>) {
    match step
    case Accept(s, made) => s !in st.sessions && CanMake(st, DEFAULT_GROUP, made)
    case Read(s, input, made) => s in st.sessions && st.sessions[s].reading && ReadCanMake(st, input, made)
    case WriteDone(s) => s in st.sessions && st.sessions[s].inFlight != []
    case WriteError(s) => s in st.sessions && st.sessions[s].inFlight != []
  }

  ghost function Next<S, G>(st: ServerView<S, G>, step: ServerStep<S, G>): ServerView<S, G>
    requires Inv(st) && Enabled(st, step)
  {
    match step
    case Accept(s, made) => OnAccept(st, s, made)
    case Read(s, input, made) => OnRead(st, s, input, made)
    case WriteDone(s) => st.(sessions := st.sessions[s := Written(st.sessions[s])])
    case WriteError(s) =>
      LeaveGroup(st.(sessions := st.sessions[s := WriteLost(st.sessions[s])]), st.sessions[s].group.value, s)
  }

  // ---------- What every step keeps ----------

  /** Distinct registry keys name distinct groups, all of them known. */
  ghost predicate RegistryOk<S, G>(st: ServerView<S, G>) {
    && (forall k :: k in st.registry ==> st.registry[k] in st.members)
    && (forall k, l :: k in st.registry && l in st.registry && st.registry[k] == st.registry[l] ==> k == l)
  }

  /** Receivers are sessions, and each is in the receiver set of no group but the one it remembers. */
  ghost predicate MembersOk<S, G>(st: ServerView<S, G>) {
    forall g, s :: g in st.members && s in st.members[g] ==> s in st.sessions && st.sessions[s].group == Some(g)
  }

  /**
   * Every session remembers a known group. It is in it while it reads and its writes have not failed, and
   * it is not once it reads no more.
   */
  ghost predicate SessionsOk<S, G>(st: ServerView<S, G>) {
    forall s :: s in st.sessions ==>
      var v := st.sessions[s];
      && QueueOk(v)
      && v.group.Some? && v.group.value in st.members
      && (v.reading && !v.writeFailed ==> s in st.members[v.group.value])
      && (!v.reading ==> s !in st.members[v.group.value])
  }

  ghost predicate Inv<S, G>(st: ServerView<S, G>) {
    RegistryOk(st) && MembersOk(st) && SessionsOk(st)
  }

  lemma QueueSteps<G>(v: SessionView<G>, m: Message)
    requires QueueOk(v)
    ensures QueueOk(Enqueue(v, m))
    ensures v.inFlight != [] ==> v.queue != [] && QueueOk(Written(v)) && QueueOk(WriteLost(v))
  {
    assert v.wire + (v.queue + [m]) == (v.wire + v.queue) + [m];
    if v.inFlight != [] {
      assert v.wire + [v.queue[0]] + v.queue[1..] == v.wire + v.queue;
    }
  }

  lemma GetGroupKeeps<S, G>(st: ServerView<S, G>, name: string, made: G)
    requires Inv(st) && CanMake(st, name, made)
    ensures var t := GetGroup(st, name, made); Inv(t) && name in t.registry && t.sessions == st.sessions
  {
  }

  lemma LeaveKeeps<S, G>(st: ServerView<S, G>, g: G, s: S)
    requires Inv(st) && g in st.members && s in st.sessions
    requires st.sessions[s].reading && !st.sessions[s].writeFailed ==> st.sessions[s].group != Some(g)
    ensures Inv(LeaveGroup(st, g, s))
  {
  }

  /** Joining a known group and leaving the remembered one, in the order the handler does it. */
  lemma MoveKeeps<S, G>(st: ServerView<S, G>, s: S, g: G)
    requires Inv(st) && s in st.sessions && st.sessions[s].reading && g in st.members
    ensures var was := st.sessions[s].group.value;
      var st2 := JoinGroup(SetGroup(st, s, g), g, s);
      Inv(if was != g then LeaveGroup(st2, was, s) else st2)
  {
  }

  lemma SendKeeps<S, G>(st: ServerView<S, G>, s: S, m: Message)
    requires Inv(st) && s in st.sessions
    ensures Inv(SendData(st, s, m))
  {
    QueueSteps(st.sessions[s], m);
  }

  lemma BroadcastKeeps<S, G>(st: ServerView<S, G>, g: G, e: Event)
    requires Inv(st) && g in st.members
    ensures Inv(Broadcast(st, g, e))
  {
    forall t | t in st.sessions
      ensures QueueOk(Enqueue(st.sessions[t], State(e)))
    {
      QueueSteps(st.sessions[t], State(e));
    }
  }

  lemma UpdateKeeps<S, G>(st: ServerView<S, G>, s: S, v: SessionView<G>)
    requires Inv(st) && s in st.sessions && QueueOk(v) && v.group == st.sessions[s].group
    requires v.reading == st.sessions[s].reading && (st.sessions[s].writeFailed ==> v.writeFailed)
    ensures Inv(st.(sessions := st.sessions[s := v]))
  {
  }

  lemma AcceptKeeps<S, G>(st: ServerView<S, G>, s: S, made: G)
    requires Inv(st) && s !in st.sessions && CanMake(st, DEFAULT_GROUP, made)
    ensures st.registry.Values <= st.members.Keys && Inv(OnAccept(st, s, made))
  {
    GetGroupKeeps(st, DEFAULT_GROUP, made);
    var st1 := GetGroup(st, DEFAULT_GROUP, made);
    NewcomerKeeps(st1, s, st1.registry[DEFAULT_GROUP]);
  }

  lemma NewcomerKeeps<S, G>(st: ServerView<S, G>, s: S, g: G)
    requires Inv(st) && s !in st.sessions && g in st.members
    ensures Inv(JoinGroup(st.(sessions := st.sessions[s := NewSession().(group := Some(g))]), g, s))
  {
    assert forall h :: h in st.members ==> s !in st.members[h];
    assert QueueOk(NewSession<G>().(group := Some(g)));
  }

  /** Every handler keeps the invariant. */
  lemma StepKeepsInv<S, G>(st: ServerView<S, G>, step: ServerStep<S, G>)
    requires Inv(st) && Enabled(st, step)
    ensures Inv(Next(st, step))
  {
    match step
    case Accept(s, made) =>
      AcceptKeeps(st, s, made);
    case Read(s, input, made) =>
      ReadKeeps(st, s, input, made);
    case WriteDone(s) =>
      QueueSteps(st.sessions[s], Ok);
      UpdateKeeps(st, s, Written(st.sessions[s]));
    case WriteError(s) =>
      var v := st.sessions[s];
      QueueSteps(v, Ok);
      UpdateKeeps(st, s, WriteLost(v));
      LeaveKeeps(st.(sessions := st.sessions[s := WriteLost(v)]), v.group.value, s);
  }

  lemma ReadKeeps<S, G>(st: ServerView<S, G>, s: S, input: Input, made: G)
    requires Inv(st) && Enabled(st, Read(s, input, made))
    ensures Inv(OnRead(st, s, input, made))
  {
    var g := st.sessions[s].group.value;
    match input
    case Received(Join(name)) =>
      GetGroupKeeps(st, name, made);
      var st1 := GetGroup(st, name, made);
      var h := st1.registry[name];
      MoveKeeps(st1, s, h);
      var st2 := JoinGroup(SetGroup(st1, s, h), h, s);
      SendKeeps(if g != h then LeaveGroup(st2, g, s) else st2, s, Ok);
    case Received(Post(e)) =>
      BroadcastKeeps(st, g, e);
    case Received(Version) =>
      SendKeeps(st, s, VersionReply(SERVER_VERSION));
    case Received(Other) =>
    case NotJson =>
      SendKeeps(st, s, ErrorReply);
      QuitKeeps(SendData(st, s, ErrorReply), g, s);
    case Invalid =>
      SendKeeps(st, s, ErrorReply);
      QuitKeeps(SendData(st, s, ErrorReply), g, s);
    case Failed =>
      QuitKeeps(st, g, s);
  }

  lemma QuitKeeps<S, G>(st: ServerView<S, G>, g: G, s: S)
    requires Inv(st) && s in st.sessions && st.sessions[s].group == Some(g)
    ensures Inv(StopReading(LeaveGroup(st, g, s), s))
  {
  }

  ghost predicate MemberOf<S, G>(st: ServerView<S, G>, s: S, g: G) {
    g in st.members && s in st.members[g]
  }

  lemma JoinMoves<S, G>(st: ServerView<S, G>, u: S, name: string, made: G, s: S, g: G)
    requires Inv(st) && u in st.sessions && st.sessions[u].reading && CanMake(st, name, made)
    ensures MemberOf(OnJoin(st, u, name, made), s, g) <==>
      if u == s then g == GetGroup(st, name, made).registry[name] else MemberOf(st, s, g)
  {
    GetGroupKeeps(st, name, made);
  }

  lemma ReadMoves<S, G>(st: ServerView<S, G>, u: S, input: Input, made: G, s: S, g: G)
    requires Inv(st) && Enabled(st, Read(u, input, made)) && !(input.Received? && input.command.Join?)
    ensures MemberOf(OnRead(st, u, input, made), s, g) <==> MemberOf(st, s, g) && (u == s ==> input.Received?)
  {
  }

  /** Who receives for g after a step: only a session's own connection, joins and errors move it. */
  lemma MembershipAfter<S, G>(st: ServerView<S, G>, step: ServerStep<S, G>, s: S, g: G)
    requires Inv(st) && Enabled(st, step)
    ensures MemberOf(Next(st, step), s, g) <==>
      match step
      case Accept(u, made) =>
        if u == s then g == GetGroup(st, DEFAULT_GROUP, made).registry[DEFAULT_GROUP] else MemberOf(st, s, g)
      case Read(u, Received(Join(name)), made) =>
        if u == s then g == GetGroup(st, name, made).registry[name] else MemberOf(st, s, g)
      case Read(_, Received(_), _) => MemberOf(st, s, g)
      case Read(u, _, _) => u != s && MemberOf(st, s, g)
      case WriteDone(_) => MemberOf(st, s, g)
      case WriteError(u) => u != s && MemberOf(st, s, g)
  {
    if step.Read? {
      if step.input.Received? && step.input.command.Join? {
        JoinMoves(st, step.session, step.input.command.group, step.made, s, g);
      } else {
        ReadMoves(st, step.session, step.input, step.made, s, g);
      }
    }
  }

  // ---------- Runs ----------

  /** Each step is possible where it happens. */
  ghost predicate IsRun<S, G>(st: ServerView<S, G>, steps: seq<ServerStep<S, G>>)
    requires Inv(st)
    decreases |steps|
  {
    steps == [] || (Enabled(st, steps[0]) && (StepKeepsInv(st, steps[0]); IsRun(Next(st, steps[0]), steps[1..])))
  }

  ghost function After<S, G>(st: ServerView<S, G>, steps: seq<ServerStep<S, G>>): (r: ServerView<S, G>)
    requires Inv(st) && IsRun(st, steps)
    ensures Inv(r)
    decreases |steps|
  {
    if steps == [] then st else StepKeepsInv(st, steps[0]); After(Next(st, steps[0]), steps[1..])
  }

  /** s receives for g before, between and after all the steps. */
  ghost predicate MemberThroughout<S, G>(st: ServerView<S, G>, steps: seq<ServerStep<S, G>>, s: S, g: G)
    requires Inv(st) && IsRun(st, steps)
    decreases |steps|
  {
    MemberOf(st, s, g) && (steps == [] || (StepKeepsInv(st, steps[0]); MemberThroughout(Next(st, steps[0]), steps[1..], s, g)))
  }

  /** The events posted to g during the run, by sessions that remember g, in the order handled. */
  ghost function PostedTo<S, G>(st: ServerView<S, G>, steps: seq<ServerStep<S, G>>, g: G): seq<Event>
    requires Inv(st) && IsRun(st, steps)
    decreases |steps|
  {
    if steps == [] then []
    else StepKeepsInv(st, steps[0]); PostedBy(st, steps[0], g) + PostedTo(Next(st, steps[0]), steps[1..], g)
  }

  ghost function PostedBy<S, G>(st: ServerView<S, G>, step: ServerStep<S, G>, g: G): seq<Event>
    requires Enabled(st, step)
  {
    match step
    case Read(s, Received(Post(e)), _) => if st.sessions[s].group == Some(g) then [e] else []
    case _ => []
  }

  /** The events among the messages. */
  ghost function StateLines(ms: seq<Message>): seq<Event> {
    if ms == [] then [] else (if ms[0].State? then [ms[0].data] else []) + StateLines(ms[1..])
  }

  lemma {:induction false} StateLinesAppend(ms: seq<Message>, m: Message)
    ensures StateLines(ms + [m]) == StateLines(ms) + (if m.State? then [m.data] else [])
  {
    if ms == [] {
      assert [] + [m] == [m] && [m][1..] == [];
    } else {
      var rest := ms[1..];
      assert (ms + [m])[1..] == rest + [m];
      StateLinesAppend(rest, m);
      var first := if ms[0].State? then [ms[0].data] else [];
      var last := if m.State? then [m.data] else [];
      assert first + (StateLines(rest) + last) == (first + StateLines(rest)) + last;
    }
  }

  /** The messages one step queues for session t. */
  ghost function QueuedBy<S, G>(st: ServerView<S, G>, step: ServerStep<S, G>, t: S): seq<Message>
    requires Inv(st) && Enabled(st, step)
  {
    match step
    case Accept(_, _) => []
    case WriteDone(_) => []
    case WriteError(_) => []
    case Read(s, input, _) =>
      match input
      case Received(Join(_)) => if t == s then [Ok] else []
      case Received(Post(e)) => if t in st.members[st.sessions[s].group.value] then [State(e)] else []
      case Received(Version) => if t == s then [VersionReply(10)] else []
      case Received(Other) => []
      case NotJson => if t == s then [ErrorReply] else []
      case Invalid => if t == s then [ErrorReply] else []
      case Failed => []
  }

  lemma JoinSessions<S, G>(st: ServerView<S, G>, s: S, name: string, made: G)
    requires Inv(st) && s in st.sessions
    ensures exists g :: OnJoin(st, s, name, made).sessions
                     == st.sessions[s := Enqueue(st.sessions[s].(group := Some(g)), Ok)]
  {
    var g := GetGroup(st, name, made).registry[name];
    assert OnJoin(st, s, name, made).sessions == st.sessions[s := Enqueue(st.sessions[s].(group := Some(g)), Ok)];
  }

  lemma QuitSessions<S, G>(st: ServerView<S, G>, g: G, s: S)
    requires g in st.members && s in st.sessions
    ensures StopReading(LeaveGroup(st, g, s), s).sessions == st.sessions[s := st.sessions[s].(reading := false)]
  {
  }

  ghost predicate QueuedFor<G>(v: SessionView<G>, w: SessionView<G>, ms: seq<Message>) {
    && w.sent == v.sent + ms
    && w.wire == v.wire && w.writeFailed == v.writeFailed
  }

  lemma ReadQueues<S, G>(st: ServerView<S, G>, s: S, input: Input, made: G, t: S)
    requires Inv(st) && Enabled(st, Read(s, input, made)) && t in st.sessions
    ensures t in OnRead(st, s, input, made).sessions
    ensures QueuedFor(st.sessions[t], OnRead(st, s, input, made).sessions[t], QueuedBy(st, Read(s, input, made), t))
  {
    var g := st.sessions[s].group.value;
    match input
    case Received(Join(name)) => JoinSessions(st, s, name, made);
    case NotJson => QuitSessions(SendData(st, s, ErrorReply), g, s);
    case Invalid => QuitSessions(SendData(st, s, ErrorReply), g, s);
    case Failed => QuitSessions(st, g, s);
    case _ =>
  }

  lemma StepQueues<S, G>(st: ServerView<S, G>, step: ServerStep<S, G>, t: S)
    requires Inv(st) && Enabled(st, step) && t in st.sessions
    ensures t in Next(st, step).sessions
    ensures Next(st, step).sessions[t].sent == st.sessions[t].sent + QueuedBy(st, step, t)
    ensures var v, w := st.sessions[t], Next(st, step).sessions[t];
      v.wire <= w.wire && (v.writeFailed ==> w.writeFailed && w.wire == v.wire)
  {
    if step.Read? {
      ReadQueues(st, step.session, step.input, step.made, t);
    }
  }

  /** One step sends a member of g exactly what the step posts to g. */
  lemma StepDelivers<S, G>(st: ServerView<S, G>, step: ServerStep<S, G>, s: S, g: G)
    requires Inv(st) && Enabled(st, step) && MemberOf(st, s, g)
    ensures s in st.sessions && s in Next(st, step).sessions
    ensures Delivers(st.sessions[s], Next(st, step).sessions[s], PostedBy(st, step, g))
  {
    StepQueues(st, step, s);
    var before, more := st.sessions[s].sent, QueuedBy(st, step, s);
    if more != [] {
      StateLinesAppend(before, more[0]);
    }
    QueuedIsPosted(st, step, s, g);
  }

  lemma QueuedIsPosted<S, G>(st: ServerView<S, G>, step: ServerStep<S, G>, s: S, g: G)
    requires Inv(st) && Enabled(st, step) && MemberOf(st, s, g)
    ensures var more := QueuedBy(st, step, s);
      |more| <= 1 && PostedBy(st, step, g) == if more != [] && more[0].State? then [more[0].data] else []
  {
    assert st.sessions[s].group == Some(g);
    if step.Read? && step.input.Received? && step.input.command.Post? {
      var h := st.sessions[step.session].group.value;
      assert s in st.members[h] <==> h == g;
    }
  }

  /**
   * A session that stays in a group gets, as its state messages, exactly the events posted to the group
   * meanwhile, each once and in the order the server handled them.
   */
  lemma {:induction false} BroadcastIsComplete<S, G>(st: ServerView<S, G>, steps: seq<ServerStep<S, G>>, s: S, g: G)
    requires Inv(st) && IsRun(st, steps) && MemberThroughout(st, steps, s, g)
    ensures s in st.sessions && s in After(st, steps).sessions
    ensures Delivers(st.sessions[s], After(st, steps).sessions[s], PostedTo(st, steps, g))
    decreases |steps|
  {
    if steps != [] {
      var step, rest := steps[0], steps[1..];
      StepKeepsInv(st, step);
      var mid := Next(st, step);
      StepDelivers(st, step, s, g);
      BroadcastIsComplete(mid, rest, s, g);
      DeliversBoth(st.sessions[s], mid.sessions[s], After(mid, rest).sessions[s], PostedBy(st, step, g), PostedTo(mid, rest, g));
    }
  }

  /** Between v and w exactly these events were queued for the session. */
  ghost predicate Delivers<G>(v: SessionView<G>, w: SessionView<G>, news: seq<Event>) {
    StateLines(w.sent) == StateLines(v.sent) + news
  }

  lemma DeliversBoth<G>(u: SessionView<G>, v: SessionView<G>, w: SessionView<G>, first: seq<Event>, second: seq<Event>)
    requires Delivers(u, v, first) && Delivers(v, w, second)
    ensures Delivers(u, w, first + second)
  {
  }

  /** Total order: two sessions that both stay in a group are sent the same state messages in the same order. */
  lemma TotalOrder<S, G>(st: ServerView<S, G>, steps: seq<ServerStep<S, G>>, s: S, t: S, g: G)
    requires Inv(st) && IsRun(st, steps) && MemberThroughout(st, steps, s, g) && MemberThroughout(st, steps, t, g)
    ensures s in st.sessions && t in st.sessions && s in After(st, steps).sessions && t in After(st, steps).sessions
    ensures exists news ::
      && Delivers(st.sessions[s], After(st, steps).sessions[s], news)
      && Delivers(st.sessions[t], After(st, steps).sessions[t], news)
  {
    BroadcastIsComplete(st, steps, s, g);
    BroadcastIsComplete(st, steps, t, g);
  }

  /** The messages the steps queue for session s, in order. */
  ghost function QueuedDuring<S, G>(st: ServerView<S, G>, steps: seq<ServerStep<S, G>>, s: S): seq<Message>
    requires Inv(st) && IsRun(st, steps)
    decreases |steps|
  {
    if steps == [] then []
    else StepKeepsInv(st, steps[0]); QueuedBy(st, steps[0], s) + QueuedDuring(Next(st, steps[0]), steps[1..], s)
  }

  /**
   * The write queue over a whole run: written messages followed by the queue are the messages queued, in
   * order; at most one write is outstanding, of the queue's front; after a failed write the wire stays as it is.
   */
  lemma {:induction false} WriteQueueHistory<S, G>(st: ServerView<S, G>, steps: seq<ServerStep<S, G>>, s: S)
    requires Inv(st) && IsRun(st, steps) && s in st.sessions
    ensures s in After(st, steps).sessions
    ensures QueueGrew(st.sessions[s], After(st, steps).sessions[s], QueuedDuring(st, steps, s))
    decreases |steps|
  {
    if steps != [] {
      var step, rest := steps[0], steps[1..];
      StepKeepsInv(st, step);
      StepQueues(st, step, s);
      var mid := Next(st, step);
      WriteQueueHistory(mid, rest, s);
      GrowsBoth(st.sessions[s], mid.sessions[s], After(mid, rest).sessions[s], QueuedBy(st, step, s), QueuedDuring(mid, rest, s));
    }
  }

  ghost predicate QueueGrew<G>(v: SessionView<G>, w: SessionView<G>, ms: seq<Message>) {
    && w.sent == v.sent + ms
    && w.wire + w.queue == w.sent
    && |w.inFlight| <= 1 && w.inFlight <= w.queue
    && v.wire <= w.wire && (v.writeFailed ==> w.writeFailed && w.wire == v.wire)
  }

  lemma GrowsBoth<G>(u: SessionView<G>, v: SessionView<G>, w: SessionView<G>, first: seq<Message>, second: seq<Message>)
    requires v.sent == u.sent + first && u.wire <= v.wire && (u.writeFailed ==> v.writeFailed && v.wire == u.wire)
    requires QueueGrew(v, w, second)
    ensures QueueGrew(u, w, first + second)
  {
  }

  ghost function EmptyServer<S, G>(): (st: ServerView<S, G>)
    ensures Inv(st)
  {
    ServerView(map[], map[], map[])
  }

  lemma {:induction false} RunSplits<S, G>(st: ServerView<S, G>, a: seq<ServerStep<S, G>>, b: seq<ServerStep<S, G>>)
    requires Inv(st) && IsRun(st, a + b)
    ensures IsRun(st, a) && IsRun(After(st, a), b)
    ensures After(st, a + b) == After(After(st, a), b)
    decreases |a|
  {
    if a == [] {
      assert a + b == b;
    } else {
      StepKeepsInv(st, a[0]);
      assert (a + b)[1..] == a[1..] + b;
      RunSplits(Next(st, a[0]), a[1..], b);
    }
  }

  /**
   * Of a server since it started: in any run from the empty server, cut anywhere, every session's written
   * messages and queue are what was queued for it, and sessions that stay in a group over the second part
   * are sent the same state messages in it.
   */
  lemma SinceStart<S, G>(first: seq<ServerStep<S, G>>, second: seq<ServerStep<S, G>>, s: S, t: S, g: G)
    requires IsRun(EmptyServer<S, G>(), first + second)
    ensures IsRun(EmptyServer<S, G>(), first) && IsRun(After(EmptyServer<S, G>(), first), second)
    ensures var mid := After(EmptyServer<S, G>(), first); var end := After(mid, second);
      && (s in mid.sessions ==>
            s in end.sessions && QueueGrew(mid.sessions[s], end.sessions[s], QueuedDuring(mid, second, s)))
      && (MemberThroughout(mid, second, s, g) && MemberThroughout(mid, second, t, g) ==>
            s in mid.sessions && t in mid.sessions && s in end.sessions && t in end.sessions
            && exists news :: Delivers(mid.sessions[s], end.sessions[s], news) && Delivers(mid.sessions[t], end.sessions[t], news))
  {
    RunSplits(EmptyServer<S, G>(), first, second);
    var mid := After(EmptyServer<S, G>(), first);
    if s in mid.sessions {
      WriteQueueHistory(mid, second, s);
    }
    if MemberThroughout(mid, second, s, g) && MemberThroughout(mid, second, t, g) {
      TotalOrder(mid, second, s, t, g);
    }
  }

  // ---------- Who receives, read off the run ----------

  /** The step puts session s into a group: its connection is accepted, or it joins. */
  predicate EntersBy<S(==), G>(step: ServerStep<S, G>, s: S) {
    match step
    case Accept(u, _) => u == s
    case Read(u, Received(Join(_)), _) => u == s
    case _ => false
  }

  /** A write of s failed since it last entered a group. */
  ghost predicate WriteFailedSince<S, G>(steps: seq<ServerStep<S, G>>, s: S) {
    exists i :: 0 <= i < |steps| && steps[i] == WriteError(s) && forall k :: i < k < |steps| ==> !EntersBy(steps[k], s)
  }

  lemma WriteFailedSnoc<S, G>(init: seq<ServerStep<S, G>>, step: ServerStep<S, G>, s: S)
    ensures WriteFailedSince(init + [step], s) <==>
      step == WriteError(s) || (WriteFailedSince(init, s) && !EntersBy(step, s))
  {
    var steps := init + [step];
    assert forall k :: 0 <= k < |init| ==> steps[k] == init[k];
    assert steps[|init|] == step;
    if WriteFailedSince(init, s) && !EntersBy(step, s) {
      var i :| 0 <= i < |init| && init[i] == WriteError(s) && forall k :: i < k < |init| ==> !EntersBy(init[k], s);
      assert steps[i] == WriteError(s);
    }
  }

  /** What a step does to a session's reading and remembered group. */
  lemma SessionAfter<S, G>(st: ServerView<S, G>, step: ServerStep<S, G>, s: S)
    requires Inv(st) && Enabled(st, step) && s in Next(st, step).sessions
    ensures s !in st.sessions ==> step.Accept? && step.session == s
    ensures s !in st.sessions ==> Next(st, step).sessions[s].sent == [] && Next(st, step).sessions[s].wire == []
    ensures EntersBy(step, s) ==> Next(st, step).sessions[s].reading
    ensures s in st.sessions && !EntersBy(step, s) ==>
      && Next(st, step).sessions[s].group == st.sessions[s].group
      && (Next(st, step).sessions[s].reading <==> st.sessions[s].reading && !(step.Read? && step.session == s && !step.input.Received?))
  {
    if step.Read? {
      ReadSession(st, step.session, step.input, step.made, s);
    }
  }

  lemma ReadSession<S, G>(st: ServerView<S, G>, u: S, input: Input, made: G, s: S)
    requires Inv(st) && Enabled(st, Read(u, input, made)) && s in OnRead(st, u, input, made).sessions
    ensures s in st.sessions
    ensures var v, w := st.sessions[s], OnRead(st, u, input, made).sessions[s];
      && (w.reading <==> v.reading && !(u == s && !input.Received?))
      && (!(u == s && input.Received? && input.command.Join?) ==> w.group == v.group)
  {
    var g := st.sessions[u].group.value;
    match input
    case Received(Join(name)) => JoinSessions(st, u, name, made);
    case NotJson => QuitSessions(SendData(st, u, ErrorReply), g, u);
    case Invalid => QuitSessions(SendData(st, u, ErrorReply), g, u);
    case Failed => QuitSessions(st, g, u);
    case _ =>
  }

  lemma LastStep<S, G>(st: ServerView<S, G>, init: seq<ServerStep<S, G>>, step: ServerStep<S, G>)
    requires Inv(st) && IsRun(st, init + [step])
    ensures IsRun(st, init) && Enabled(After(st, init), step) && After(st, init + [step]) == Next(After(st, init), step)
  {
    RunSplits(st, init, [step]);
    assert [step][1..] == [];
    StepKeepsInv(After(st, init), step);
  }

  lemma HistoryStep<S, G>(st: ServerView<S, G>, init: seq<ServerStep<S, G>>, step: ServerStep<S, G>, s: S)
    requires Inv(st) && Enabled(st, step) && s in Next(st, step).sessions
    requires s in st.sessions ==>
      (MemberOf(st, s, st.sessions[s].group.value) <==> st.sessions[s].reading && !WriteFailedSince(init, s))
    ensures Next(st, step).sessions[s].group.Some?
    ensures MemberOf(Next(st, step), s, Next(st, step).sessions[s].group.value) <==>
      Next(st, step).sessions[s].reading && !WriteFailedSince(init + [step], s)
  {
    StepKeepsInv(st, step);
    var v := Next(st, step).sessions[s];
    WriteFailedSnoc(init, step, s);
    SessionAfter(st, step, s);
    MembershipAfter(st, step, s, v.group.value);
    if EntersBy(step, s) {
      Entered(st, step, s);
    }
  }

  lemma Entered<S, G>(st: ServerView<S, G>, step: ServerStep<S, G>, s: S)
    requires Inv(st) && Enabled(st, step) && EntersBy(step, s)
    ensures s in Next(st, step).sessions && Next(st, step).sessions[s].group.Some?
    ensures MemberOf(Next(st, step), s, Next(st, step).sessions[s].group.value)
  {
    if step.Read? {
      var g := GetGroup(st, step.input.command.group, step.made).registry[step.input.command.group];
      assert Next(st, step).sessions[s].group == Some(g);
      JoinMoves(st, s, step.input.command.group, step.made, s, g);
    }
  }

  /**
   * In every state a server can reach, a session receives for the group it remembers if and only if it is
   * still read and no write to it has failed since it connected or last joined; for others it never does.
   */
  lemma {:induction false} MembershipHistory<S, G>(steps: seq<ServerStep<S, G>>, s: S, g: G)
    requires IsRun(EmptyServer<S, G>(), steps) && s in After(EmptyServer<S, G>(), steps).sessions
    ensures var end := After(EmptyServer<S, G>(), steps);
      MemberOf(end, s, g) <==>
        end.sessions[s].group == Some(g) && end.sessions[s].reading && !WriteFailedSince(steps, s)
    decreases |steps|
  {
    var start: ServerView<S, G> := EmptyServer();
    if steps != [] {
      var init, step := steps[..|steps| - 1], steps[|steps| - 1];
      assert steps == init + [step];
      LastStep(start, init, step);
      var mid := After(start, init);
      if s in mid.sessions {
        MembershipHistory(init, s, mid.sessions[s].group.value);
      }
      HistoryStep(mid, init, step, s);
    }
  }

  // ---------- Progress of writing ----------

  /** How many writes of session s completed during the steps. */
  function WritesDone<S(==), G>(steps: seq<ServerStep<S, G>>, s: S): nat {
    if steps == [] then 0 else (if steps[0] == WriteDone(s) then 1 else 0) + WritesDone(steps[1..], s)
  }

  lemma StepWrites<S, G>(st: ServerView<S, G>, step: ServerStep<S, G>, s: S)
    requires Inv(st) && Enabled(st, step) && s in st.sessions
    ensures s in Next(st, step).sessions
    ensures |Next(st, step).sessions[s].wire| == |st.sessions[s].wire| + (if step == WriteDone(s) then 1 else 0)
  {
    if step.Read? {
      ReadQueues(st, step.session, step.input, step.made, s);
    }
  }

  /** Every completed write puts one more message on the wire, the next in the order queued, and nothing else does. */
  lemma WireProgress<S, G>(st: ServerView<S, G>, steps: seq<ServerStep<S, G>>, s: S)
    requires Inv(st) && IsRun(st, steps) && s in st.sessions
    ensures s in After(st, steps).sessions
    ensures var v, w := st.sessions[s], After(st, steps).sessions[s];
      var n := |v.wire| + WritesDone(steps, s);
      n <= |w.sent| && w.wire == w.sent[..n] && w.queue == w.sent[n..]
  {
    WireLength(st, steps, s);
    StateOk(After(st, steps), s);
  }

  lemma {:induction false} WireLength<S, G>(st: ServerView<S, G>, steps: seq<ServerStep<S, G>>, s: S)
    requires Inv(st) && IsRun(st, steps) && s in st.sessions
    ensures s in After(st, steps).sessions
    ensures |After(st, steps).sessions[s].wire| == |st.sessions[s].wire| + WritesDone(steps, s)
    decreases |steps|
  {
    if steps != [] {
      StepKeepsInv(st, steps[0]);
      StepWrites(st, steps[0], s);
      WireLength(Next(st, steps[0]), steps[1..], s);
    }
  }

  lemma StateOk<S, G>(st: ServerView<S, G>, s: S)
    requires Inv(st) && s in st.sessions
    ensures var v := st.sessions[s]; v.wire == v.sent[..|v.wire|] && v.queue == v.sent[|v.wire|..]
  {
    var v := st.sessions[s];
    assert v.wire + v.queue == v.sent;
  }

  /** While messages wait and no write has failed, the next one is being written: writing never stalls. */
  lemma WritingNeverStalls<S, G>(st: ServerView<S, G>, s: S)
    requires Inv(st) && s in st.sessions && st.sessions[s].queue != [] && !st.sessions[s].writeFailed
    ensures Enabled(st, WriteDone(s)) && st.sessions[s].inFlight == [st.sessions[s].queue[0]]
    ensures |Next(st, WriteDone(s)).sessions[s].queue| == |st.sessions[s].queue| - 1
  {
  }

  // ---------- The registry ----------

  /** The group name the step looks up, if any. */
  function LooksUp<S, G>(step: ServerStep<S, G>): Option<string> {
    match step
    case Accept(_, _) => Some("default")
    case Read(_, Received(Join(name)), _) => Some(name)
    case _ => None
  }

  /** The step makes a session leave group g and leaves it empty. */
  ghost predicate Empties<S, G>(st: ServerView<S, G>, step: ServerStep<S, G>, g: G)
    requires Inv(st) && Enabled(st, step)
  {
    match step
    case Accept(_, _) => false
    case WriteDone(_) => false
    case WriteError(s) => st.sessions[s].group == Some(g) && st.members[g] <= {s}
    case Read(s, Received(Join(name)), _) =>
      && st.sessions[s].group == Some(g) && st.members[g] <= {s}
      && !(name in st.registry && st.registry[name] == g)
    case Read(_, Received(_), _) => false
    case Read(s, _, _) => st.sessions[s].group == Some(g) && st.members[g] <= {s}
  }

  lemma LeaveRegistry<S, G>(st: ServerView<S, G>, g: G, s: S, key: string)
    requires g in st.members
    ensures key in LeaveGroup(st, g, s).registry <==> key in st.registry && !(key == "" && st.members[g] <= {s})
    ensures key in LeaveGroup(st, g, s).registry ==> LeaveGroup(st, g, s).registry[key] == st.registry[key]
  {
    assert st.members[g] - {s} == {} <==> st.members[g] <= {s};
  }

  lemma ReadRegistry<S, G>(st: ServerView<S, G>, s: S, input: Input, made: G, key: string)
    requires Inv(st) && Enabled(st, Read(s, input, made))
    ensures var step := Read(s, input, made);
      key in OnRead(st, s, input, made).registry <==>
        && (key in st.registry || LooksUp(step) == Some(key))
        && !(key == "" && Empties(st, step, st.sessions[s].group.value))
    ensures key in st.registry && key in OnRead(st, s, input, made).registry ==>
      OnRead(st, s, input, made).registry[key] == st.registry[key]
  {
    var was := st.sessions[s].group.value;
    match input
    case Received(Join(name)) =>
      var st1 := GetGroup(st, name, made);
      var g := st1.registry[name];
      var st2 := JoinGroup(SetGroup(st1, s, g), g, s);
      if was != g {
        assert st2.members[was] == st.members[was];
        LeaveRegistry(st2, was, s, key);
      }
    case NotJson => LeaveRegistry(SendData(st, s, ErrorReply), was, s, key);
    case Invalid => LeaveRegistry(SendData(st, s, ErrorReply), was, s, key);
    case Failed => LeaveRegistry(st, was, s, key);
    case _ =>
  }

  /**
   * Which names are registered after a step: those before and the one looked up, except that a group left
   * empty takes the empty name with it, whichever group that is. No name changes its group.
   */
  lemma RegistryAfter<S, G>(st: ServerView<S, G>, step: ServerStep<S, G>, key: string)
    requires Inv(st) && Enabled(st, step)
    ensures key in Next(st, step).registry <==>
      (key in st.registry || LooksUp(step) == Some(key)) && !(key == "" && exists g :: g in st.members && Empties(st, step, g))
    ensures key in st.registry && key in Next(st, step).registry ==> Next(st, step).registry[key] == st.registry[key]
  {
    match step
    case Accept(_, _) =>
    case WriteDone(_) =>
    case Read(s, input, made) =>
      ReadRegistry(st, s, input, made, key);
      assert st.sessions[s].group.value in st.members;
    case WriteError(s) =>
      var g := st.sessions[s].group.value;
      assert g in st.members;
      LeaveRegistry(st.(sessions := st.sessions[s := WriteLost(st.sessions[s])]), g, s, key);
      assert Empties(st, step, g) <==> st.members[g] <= {s};
  }
}
