/**
 * The client half of the group protocol: an addon, the line-ordered connection to the server, and the
 * server it is one session of. The client and the server agree on the group, up to the joins under way.
 */
module GroupAgreement {
  import opened Events
  import opened RelayModel

  datatype ServerStatus = Online | Offline | OutOfDate | Initializing

  const CLIENT_VERSION := 10

  /** How the version exchange of start_sync ended. */
  datatype Handshake = Answered(version: int) | Garbled | NoConnection

  /** channel: lines the client has written and the server has not yet read. */
  datatype ClientView = ClientView(id: string, status: ServerStatus, connected: bool, channel: seq<Command>)

  const NEW_CLIENT := ClientView(DEFAULT_GROUP, Initializing, false, [])

  function GroupId(requested: string): string {
    if requested == "" then DEFAULT_GROUP else requested
  }

  function OnStartSync(c: ClientView, h: Handshake): ClientView {
    match h
    case NoConnection => c.(status := Offline)
    case Garbled => c.(status := Offline, connected := true, channel := c.channel + [Version])
    case Answered(v) =>
      c.(status := if v == CLIENT_VERSION then Online else OutOfDate, connected := true, channel := c.channel + [Version])
  }

  /** One frame: join the wanted group if it changed. A write that fails puts the client offline. */
  function OnFrame(c: ClientView, requested: string, writes: bool): ClientView {
    var id := GroupId(requested);
    if c.status != Online || !c.connected || id == c.id then c
    else if writes then c.(id := id, channel := c.channel + [Join(id)])
    else c.(id := id, status := Offline)
  }

  /** A state message, written by a thread of its own. */
  function OnPost(c: ClientView, e: Event): ClientView {
    if c.status != Online || !c.connected then c else c.(channel := c.channel + [Post(e)])
  }

  /** A server line or the end of the connection. */
  datatype Reply = Line(message: Message) | Unreadable | Lost

  function OnReply(c: ClientView, r: Reply): ClientView {
    if c.status != Online || !c.connected then c
    else if r == Lost || r == Unreadable || r == Line(ErrorReply) then c.(status := Offline)
    else c
  }

  /** The client object. */
  class Api {
    var id: string
    var serverStatus: ServerStatus
    var connected: bool
    // the socket's side: lines written and not yet read by the server
    var channel: seq<Command>

    function View(): ClientView
      reads this
    {
      ClientView(id, serverStatus, connected, channel)
    }

    constructor ()
      ensures View() == NEW_CLIENT
    {
      id, serverStatus, connected, channel := DEFAULT_GROUP, Initializing, false, [];
    }

    method StartSync(h: Handshake)
      modifies this
      ensures View() == OnStartSync(old(View()), h)
    {
      if h == NoConnection {
        serverStatus := Offline;
      } else {
        connected := true;
        channel := channel + [Version];
        if h.Answered? {
          if h.version != CLIENT_VERSION {
            serverStatus := OutOfDate;
          } else {
            serverStatus := Online;
          }
        } else {
          serverStatus := Offline;
        }
      }
    }

    method ModImgui(requested: string, writes: bool)
      modifies this
      ensures View() == OnFrame(old(View()), requested, writes)
    {
      if serverStatus != Online || !connected {
        return;
      }
      var newId := requested;
      if newId == "" {
        newId := DEFAULT_GROUP;
      }
      if id != newId {
        id := newId;
        if writes {
          channel := channel + [Join(id)];
        } else {
          serverStatus := Offline;
        }
      }
    }

    method PostServerApi(e: Event)
      modifies this
      ensures View() == OnPost(old(View()), e)
    {
      if serverStatus != Online || !connected {
        return;
      }
      channel := channel + [Post(e)];
    }

    method Receive(r: Reply)
      modifies this
      ensures View() == OnReply(old(View()), r)
    {
      if serverStatus != Online || !connected {
        return;
      }
      match r {
        case Lost => serverStatus := Offline;
        case Unreadable => serverStatus := Offline;
        case Line(message) =>
          if message == ErrorReply {
            serverStatus := Offline;
          }
      }
    }
  }

  // ---------- Client, channel and server together ----------

  datatype World<S, G> = World(server: ServerView<S, G>, client: ClientView, me: S)

  datatype WorldStep<S, G> =
    | StartSync(handshake: Handshake)
    | Frame(requested: string, writes: bool)
    | PostEvent(data: Event)
    | Reply(reply: Reply)
    | Take(made: G)
    | Elsewhere(step: ServerStep<S, G>)

  /**
   * The client connects once. The server takes its lines in the order written. Everything else the server does is possible
   * too: other sessions, all write completions, and this session's read failing.
   */
  ghost predicate CanHappen<S, G>(w: World<S, G>, step: WorldStep<S, G>) {
    match step
    case Take(made) => w.client.channel != [] && Enabled(w.server, Read(w.me, Received(w.client.channel[0]), made))
    case StartSync(_) => w.client.status == Initializing
    case Elsewhere(s) => Enabled(w.server, s) && (s.Read? && s.session == w.me ==> s.input == Failed)
    case _ => true
  }

  ghost function Happens<S, G>(w: World<S, G>, step: WorldStep<S, G>): World<S, G>
    requires Inv(w.server) && CanHappen(w, step)
  {
    match step
    case StartSync(h) => w.(client := OnStartSync(w.client, h))
    case Frame(requested, writes) => w.(client := OnFrame(w.client, requested, writes))
    case PostEvent(e) => w.(client := OnPost(w.client, e))
    case Reply(r) => w.(client := OnReply(w.client, r))
    case Take(made) =>
      w.(server := Next(w.server, Read(w.me, Received(w.client.channel[0]), made)),
         client := w.client.(channel := w.client.channel[1..]))
    case Elsewhere(s) => w.(server := Next(w.server, s))
  }

  /** The group of the last join the server has not read yet. */
  function PendingJoin(channel: seq<Command>): Option<string> {
    if channel == [] then None
    else if channel[|channel| - 1].Join? then Some(channel[|channel| - 1].group)
    else PendingJoin(channel[..|channel| - 1])
  }

  /** The session's group is the one registered under this key. */
  ghost predicate RegisteredAs<S, G>(st: ServerView<S, G>, s: S, key: string) {
    s in st.sessions && key in st.registry && st.sessions[s].group == Some(st.registry[key])
  }

  /** While the session is read, the group the client will be in once its lines are read is its id. */
  ghost predicate Agree<S, G>(w: World<S, G>) {
    match PendingJoin(w.client.channel)
    case Some(key) => w.client.id == key
    case None => RegisteredAs(w.server, w.me, w.client.id)
  }

  ghost predicate NamesOk(c: ClientView) {
    c.id != GROUP_NAME && forall m :: m in c.channel && m.Join? ==> m.group != GROUP_NAME
  }

  /** Holds from the first connection on. */
  ghost predicate WorldInv<S, G>(w: World<S, G>) {
    && Inv(w.server) && w.me in w.server.sessions && NamesOk(w.client)
    && (w.client.status != Offline && w.server.sessions[w.me].reading ==> Agree(w))
  }

  lemma {:induction false} PendingJoinSnoc(channel: seq<Command>, m: Command)
    ensures PendingJoin(channel + [m]) == if m.Join? then Some(m.group) else PendingJoin(channel)
  {
    assert (channel + [m])[..|channel|] == channel;
  }

  /** Taking the first line off the channel changes the pending join only if it was the only one. */
  lemma {:induction false} PendingJoinRest(channel: seq<Command>)
    requires channel != []
    ensures PendingJoin(channel[1..]).Some? ==> PendingJoin(channel) == PendingJoin(channel[1..])
    ensures PendingJoin(channel[1..]).None? ==> PendingJoin(channel) == if channel[0].Join? then Some(channel[0].group) else None
    decreases |channel|
  {
    if |channel| > 1 {
      var init := channel[..|channel| - 1];
      PendingJoinRest(init);
      assert channel[1..][..|channel| - 2] == init[1..];
    } else {
      assert channel[..0] == [];
    }
  }

  /** A server step changes what a session's group is registered as only by reading a join from that session. */
  lemma RegistrationStays<S, G>(st: ServerView<S, G>, step: ServerStep<S, G>, s: S, key: string)
    requires Inv(st) && Enabled(st, step) && s in st.sessions && key != GROUP_NAME
    requires step.Read? && step.session == s ==> !(step.input.Received? && step.input.command.Join?)
    ensures RegisteredAs(st, s, key) ==> RegisteredAs(Next(st, step), s, key)
  {
    if step.Read? && step.input.Received? && step.input.command.Join? {
      JoinLeavesOthers(st, step.session, step.input.command.group, step.made, s, key);
    }
  }

  lemma JoinLeavesOthers<S, G>(st: ServerView<S, G>, u: S, name: string, made: G, s: S, key: string)
    requires Inv(st) && u in st.sessions && s in st.sessions && u != s && key != GROUP_NAME && CanMake(st, name, made)
    ensures RegisteredAs(st, s, key) ==> RegisteredAs(OnJoin(st, u, name, made), s, key)
  {
  }

  lemma JoinRegisters<S, G>(st: ServerView<S, G>, s: S, name: string, made: G)
    requires Inv(st) && s in st.sessions && name != GROUP_NAME && CanMake(st, name, made)
    ensures RegisteredAs(OnJoin(st, s, name, made), s, name)
  {
    GetGroupKeeps(st, name, made);
  }

  /** A session that is no longer read stays so. */
  lemma ReadingEnds<S, G>(st: ServerView<S, G>, step: ServerStep<S, G>, s: S)
    requires Inv(st) && Enabled(st, step) && s in st.sessions
    ensures s in Next(st, step).sessions && (Next(st, step).sessions[s].reading ==> st.sessions[s].reading)
  {
    if step.Read? && step.input.Received? && step.input.command.Join? {
      JoinSessions(st, step.session, step.input.command.group, step.made);
    }
  }

  lemma ClientStepKeeps<S, G>(w: World<S, G>, step: WorldStep<S, G>)
    requires WorldInv(w) && CanHappen(w, step) && (step.Frame? || step.PostEvent? || step.Reply?)
    ensures WorldInv(Happens(w, step))
  {
    if step.Frame? {
      PendingJoinSnoc(w.client.channel, Join(GroupId(step.requested)));
    } else if step.PostEvent? {
      PendingJoinSnoc(w.client.channel, Post(step.data));
    }
  }

  lemma TakeKeeps<S, G>(w: World<S, G>, made: G)
    requires WorldInv(w) && CanHappen(w, WorldStep<S, G>.Take(made))
    ensures WorldInv(Happens(w, WorldStep<S, G>.Take(made)))
  {
    var line := w.client.channel[0];
    var step := Read(w.me, Received(line), made);
    StepKeepsInv(w.server, step);
    ReadingEnds(w.server, step, w.me);
    PendingJoinRest(w.client.channel);
    if line.Join? {
      JoinRegisters(w.server, w.me, line.group, made);
    } else {
      RegistrationStays(w.server, step, w.me, w.client.id);
    }
  }

  lemma ElsewhereKeeps<S, G>(w: World<S, G>, step: ServerStep<S, G>)
    requires WorldInv(w) && CanHappen(w, Elsewhere(step))
    ensures WorldInv(Happens(w, Elsewhere(step)))
  {
    StepKeepsInv(w.server, step);
    ReadingEnds(w.server, step, w.me);
    if step.Read? && step.session == w.me {
      QuitSessions(w.server, w.server.sessions[w.me].group.value, w.me);
    } else {
      RegistrationStays(w.server, step, w.me, w.client.id);
    }
  }

  /** Connecting: the handshake's version line is no join, and a fresh session is in the default group. */
  lemma StartSyncKeeps<S, G>(w: World<S, G>, h: Handshake)
    requires WorldInv(w) && w.client.status == Initializing
    ensures WorldInv(Happens(w, WorldStep<S, G>.StartSync(h)))
  {
    PendingJoinSnoc(w.client.channel, Version);
  }

  lemma WorldStepKeeps<S, G>(w: World<S, G>, step: WorldStep<S, G>)
    requires WorldInv(w) && CanHappen(w, step)
    ensures WorldInv(Happens(w, step))
  {
    match step
    case StartSync(h) => StartSyncKeeps(w, h);
    case Take(made) => TakeKeeps(w, made);
    case Elsewhere(s) => ElsewhereKeeps(w, s);
    case _ => ClientStepKeeps(w, step);
  }

  ghost predicate IsWorldRun<S, G>(w: World<S, G>, steps: seq<WorldStep<S, G>>)
    requires WorldInv(w)
    decreases |steps|
  {
    steps == [] || (CanHappen(w, steps[0]) && (WorldStepKeeps(w, steps[0]); IsWorldRun(Happens(w, steps[0]), steps[1..])))
  }

  ghost function WorldAfter<S, G>(w: World<S, G>, steps: seq<WorldStep<S, G>>): World<S, G>
    requires WorldInv(w) && IsWorldRun(w, steps)
    decreases |steps|
  {
    if steps == [] then w else WorldStepKeeps(w, steps[0]); WorldAfter(Happens(w, steps[0]), steps[1..])
  }

  lemma {:induction false} WorldRunKeeps<S, G>(w: World<S, G>, steps: seq<WorldStep<S, G>>)
    requires WorldInv(w) && IsWorldRun(w, steps)
    ensures WorldInv(WorldAfter(w, steps)) && WorldAfter(w, steps).me == w.me
    decreases |steps|
  {
    if steps != [] {
      WorldStepKeeps(w, steps[0]);
      WorldRunKeeps(Happens(w, steps[0]), steps[1..]);
    }
  }

  /** A client that has not connected yet, and the session its connection gets, just accepted. */
  ghost function NewWorld<S, G>(server: ServerView<S, G>, me: S, made: G): World<S, G>
    requires Inv(server) && Enabled(server, Accept(me, made))
  {
    World(Next(server, Accept(me, made)), NEW_CLIENT, me)
  }

  lemma NewWorldIsValid<S, G>(server: ServerView<S, G>, me: S, made: G)
    requires Inv(server) && Enabled(server, Accept(me, made))
    ensures WorldInv(NewWorld(server, me, made))
  {
    StepKeepsInv(server, Accept(me, made));
  }

  /**
   * Group agreement. In every state a client can reach on any server: while it is online and its session is
   * read, its id is the group of the last join still under way or, with none under way, the key its session's
   * group is registered under; the session then receives for that group unless a write to it has failed,
   * and it receives for no other.
   */
  lemma GroupsAgree<S, G>(server: ServerView<S, G>, me: S, made: G, steps: seq<WorldStep<S, G>>)
    requires Inv(server) && Enabled(server, Accept(me, made))
    requires (NewWorldIsValid(server, me, made); IsWorldRun(NewWorld(server, me, made), steps))
    ensures (NewWorldIsValid(server, me, made); var w := WorldAfter(NewWorld(server, me, made), steps);
      && me in w.server.sessions
      && (forall g :: MemberOf(w.server, me, g) ==> w.server.sessions[me].group == Some(g))
      && (w.client.status == Online && w.server.sessions[me].reading ==>
        && (PendingJoin(w.client.channel).Some? ==> w.client.id == PendingJoin(w.client.channel).value)
        && (PendingJoin(w.client.channel).None? ==>
          && RegisteredAs(w.server, me, w.client.id)
          && (!w.server.sessions[me].writeFailed ==> MemberOf(w.server, me, w.server.registry[w.client.id])))))
  {
    NewWorldIsValid(server, me, made);
    WorldRunKeeps(NewWorld(server, me, made), steps);
  }

  // ---------- The wanted group ----------

  /** The group a frame wants to be in. */
  function Wanted(requested: string): string {
    if requested == "" then "default" else requested
  }

  /**
   * After a frame an online client is in the wanted group and, if that is a change, has a join for it under way
   * or is offline because it could not be written. A client that is not online does nothing.
   */
  lemma FrameWants(c: ClientView, requested: string, writes: bool)
    ensures var d := OnFrame(c, requested, writes);
      if c.status.Online? && c.connected then
        var changes := c.id != Wanted(requested);
        && d.id == Wanted(requested) && (d.status.Offline? <==> changes && !writes) && (d.status.Online? <==> !d.status.Offline?)
        && d.channel == c.channel + (if changes && writes then [Join(Wanted(requested))] else [])
        && (changes && writes ==> PendingJoin(d.channel) == Some(Wanted(requested)))
      else
        d == c
  {
    PendingJoinSnoc(c.channel, Join(Wanted(requested)));
  }

  /** The client keeps wanting this group, online or not, and the session will be in it or is. */
  ghost predicate Held<S, G>(w: World<S, G>, wanted: string) {
    && Inv(w.server) && w.me in w.server.sessions && NamesOk(w.client)
    && w.client.id == wanted && w.client.status != Initializing
    && (w.server.sessions[w.me].reading ==> Agree(w))
  }

  ghost predicate WantsOnly<S, G>(steps: seq<WorldStep<S, G>>, wanted: string) {
    forall i :: 0 <= i < |steps| && steps[i].Frame? ==> Wanted(steps[i].requested) == wanted
  }

  lemma HeldStep<S, G>(w: World<S, G>, step: WorldStep<S, G>, wanted: string)
    requires Held(w, wanted) && CanHappen(w, step) && (step.Frame? ==> Wanted(step.requested) == wanted)
    ensures Held(Happens(w, step), wanted)
  {
    // agreement does not look at the client's status
    var online := w.(client := w.client.(status := Online));
    match step
    case StartSync(_) =>
    case Frame(_, _) =>
    case PostEvent(e) => PendingJoinSnoc(w.client.channel, Post(e));
    case Reply(_) =>
    case Take(made) => TakeKeeps(online, made);
    case Elsewhere(s) => ElsewhereKeeps(online, s);
  }

  lemma {:induction false} HeldThroughout<S, G>(w: World<S, G>, steps: seq<WorldStep<S, G>>, wanted: string)
    requires WorldInv(w) && IsWorldRun(w, steps) && Held(w, wanted) && WantsOnly(steps, wanted)
    ensures Held(WorldAfter(w, steps), wanted)
    decreases |steps|
  {
    if steps != [] {
      WorldStepKeeps(w, steps[0]);
      HeldStep(w, steps[0], wanted);
      HeldThroughout(Happens(w, steps[0]), steps[1..], wanted);
    }
  }

  /**
   * The wanted group is reached: once an online client has wanted a group and no later frame wants another,
   * its session, if still read, is in the group registered under that name as soon as the server has read
   * the joins under way.
   */
  lemma WantedGroupIsReached<S, G>(w: World<S, G>, requested: string, rest: seq<WorldStep<S, G>>)
    requires WorldInv(w) && w.client.status.Online? && w.client.connected
    requires IsWorldRun(w, [Frame(requested, true)] + rest) && WantsOnly(rest, if requested == "" then "default" else requested)
    ensures var name := if requested == "" then "default" else requested;
      var end := WorldAfter(w, [Frame(requested, true)] + rest);
      && end.client.id == name
      && end.me in end.server.sessions
      && (end.server.sessions[end.me].reading && PendingJoin(end.client.channel).None? ==> RegisteredAs(end.server, end.me, name))
  {
    var step: WorldStep<S, G> := Frame(requested, true);
    var name := Wanted(requested);
    assert ([step] + rest)[1..] == rest && ([step] + rest)[0] == step;
    WorldStepKeeps(w, step);
    FrameWants(w.client, requested, true);
    HeldThroughout(Happens(w, step), rest, name);
  }

  // ---------- The channel ----------

  /** The lines the client writes in a step. */
  ghost function WrittenBy<S, G>(w: World<S, G>, step: WorldStep<S, G>): seq<Command> {
    match step
    case StartSync(h) => if h.NoConnection? then [] else [Version]
    case Frame(requested, writes) =>
      if writes && w.client.status.Online? && w.client.connected && w.client.id != Wanted(requested)
      then [Join(Wanted(requested))] else []
    case PostEvent(e) => if w.client.status.Online? && w.client.connected then [Post(e)] else []
    case _ => []
  }

  ghost function LinesWritten<S, G>(w: World<S, G>, steps: seq<WorldStep<S, G>>): seq<Command>
    requires WorldInv(w) && IsWorldRun(w, steps)
    decreases |steps|
  {
    if steps == [] then []
    else WorldStepKeeps(w, steps[0]); WrittenBy(w, steps[0]) + LinesWritten(Happens(w, steps[0]), steps[1..])
  }

  /** The lines the server reads from the client, each by the read step for just that line. */
  ghost function LinesRead<S, G>(w: World<S, G>, steps: seq<WorldStep<S, G>>): seq<Command>
    requires WorldInv(w) && IsWorldRun(w, steps)
    decreases |steps|
  {
    if steps == [] then []
    else
      WorldStepKeeps(w, steps[0]);
      (if steps[0].Take? then [w.client.channel[0]] else []) + LinesRead(Happens(w, steps[0]), steps[1..])
  }

  /** Over any run the server reads what the client wrote, in order and each line once; the rest is under way. */
  lemma {:induction false} ChannelIsFifo<S, G>(w: World<S, G>, steps: seq<WorldStep<S, G>>)
    requires WorldInv(w) && IsWorldRun(w, steps)
    ensures LinesRead(w, steps) + WorldAfter(w, steps).client.channel == w.client.channel + LinesWritten(w, steps)
    decreases |steps|
  {
    if steps != [] {
      var step, rest := steps[0], steps[1..];
      WorldStepKeeps(w, step);
      var mid := Happens(w, step);
      ChannelIsFifo(mid, rest);
      ChannelStep(w, step);
      var read := if step.Take? then [w.client.channel[0]] else [];
      Splice(
        read, LinesRead(mid, rest), WorldAfter(mid, rest).client.channel, mid.client.channel,
        w.client.channel, WrittenBy(w, step), LinesWritten(mid, rest));
    }
  }

  lemma Splice(
      read: seq<Command>, later: seq<Command>, end: seq<Command>, mid: seq<Command>,
      start: seq<Command>, written: seq<Command>, more: seq<Command>)
    requires later + end == mid + more && read + mid == start + written
    ensures (read + later) + end == start + (written + more)
  {
    assert (read + later) + end == read + (later + end);
    assert read + (mid + more) == (read + mid) + more;
    assert (start + written) + more == start + (written + more);
  }

  lemma ChannelStep<S, G>(w: World<S, G>, step: WorldStep<S, G>)
    requires WorldInv(w) && CanHappen(w, step)
    ensures (if step.Take? then [w.client.channel[0]] else []) + Happens(w, step).client.channel
         == w.client.channel + WrittenBy(w, step)
  {
  }

  // ---------- Being online ----------

  /** The step puts an online client offline: a join that cannot be written, an error line, an unreadable one, the end. */
  predicate Breaks<S(==), G(==)>(c: ClientView, step: WorldStep<S, G>) {
    match step
    case Frame(requested, writes) => c.connected && !writes && c.id != Wanted(requested)
    case Reply(Line(m)) => c.connected && m == ErrorReply
    case Reply(_) => c.connected
    case _ => false
  }

  /** A client is online once the server answered with version 10, and until a step breaks the connection. */
  lemma StatusAfter<S, G>(w: World<S, G>, step: WorldStep<S, G>)
    requires WorldInv(w) && CanHappen(w, step)
    ensures Happens(w, step).client.status.Online? <==>
      step == WorldStep<S, G>.StartSync(Answered(10)) || (w.client.status.Online? && !Breaks(w.client, step))
    ensures Happens(w, step).client.status.OutOfDate? <==>
      (step.StartSync? && step.handshake.Answered? && step.handshake.version != 10) || w.client.status.OutOfDate?
    ensures Happens(w, step).client.status.Offline? <==>
      || (step.StartSync? && !step.handshake.Answered?) || w.client.status.Offline?
      || (w.client.status.Online? && Breaks(w.client, step))
  {
  }

  /** Whoever is online was answered with version 10. */
  lemma {:induction false} OnlineWasAnswered<S, G>(w: World<S, G>, steps: seq<WorldStep<S, G>>)
    requires WorldInv(w) && IsWorldRun(w, steps) && !w.client.status.Online? && WorldAfter(w, steps).client.status.Online?
    ensures WorldStep<S, G>.StartSync(Answered(10)) in steps
    decreases |steps|
  {
    WorldStepKeeps(w, steps[0]);
    StatusAfter(w, steps[0]);
    if !Happens(w, steps[0]).client.status.Online? {
      OnlineWasAnswered(Happens(w, steps[0]), steps[1..]);
    }
  }
}
