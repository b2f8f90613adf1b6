/** The relay server's objects, each handler proved to take the step the model gives it. */
module Relay {
  import opened Events
  import opened RelayModel

  class Session {
    var group: Option<Group>
    var queue: seq<Message>
    var reading: bool
    // the socket's side: writes started and not completed, everything queued, everything written
    var inFlight: seq<Message>
    var sent: seq<Message>
    var wire: seq<Message>
    var writeFailed: bool

    ghost function View(): SessionView<Group>
      reads this
    {
      SessionView(group, queue, inFlight, sent, wire, reading, writeFailed)
    }

    constructor ()
      ensures View() == NewSession().(reading := false)
    {
      group, queue, reading, inFlight, sent, wire, writeFailed := None, [], false, [], [], [], false;
    }

    method Start(registry: Registry)
      modifies this, registry, if DEFAULT_GROUP in registry.groups then {registry.groups[DEFAULT_GROUP]} else {}
      ensures Looked(old(registry.groups), registry.groups, DEFAULT_GROUP)
      ensures DEFAULT_GROUP in old(registry.groups) ==>
        registry.groups[DEFAULT_GROUP].receivers == old(registry.groups[DEFAULT_GROUP].receivers) + {this}
      ensures DEFAULT_GROUP !in old(registry.groups) ==>
        fresh(registry.groups[DEFAULT_GROUP]) && registry.groups[DEFAULT_GROUP].receivers == {this}
      ensures View() == old(View()).(group := Some(registry.groups[DEFAULT_GROUP]), reading := true)
    {
      var g := registry.GetGroup(DEFAULT_GROUP);
      group := Some(g);
      g.Join(this);
      reading := true;
    }

    method SendMessage(data: Event)
      modifies this
      ensures View() == Enqueue(old(View()), State(data))
    {
      SendData(State(data));
    }

    method SendData(m: Message)
      modifies this
      ensures View() == Enqueue(old(View()), m)
    {
      var writeInProgress := queue != [];
      queue := queue + [m];
      sent := sent + [m];
      if !writeInProgress {
        SendQueuedMessages();
      }
    }

    method SendQueuedMessages()
      requires queue != []
      modifies this`inFlight
      ensures inFlight == old(inFlight) + [queue[0]]
    {
      inFlight := inFlight + [queue[0]];
    }

    /** The completion handler of a write. */
    method OnWritten(failed: bool, registry: Registry)
      requires queue != [] && inFlight != []
      modifies this, registry, if failed && group.Some? then {group.value} else {}
      ensures View() == if failed then WriteLost(old(View())) else Written(old(View()))
      ensures failed && group.Some? ==> group.value.receivers == old(group.value.receivers) - {this}
      ensures registry.groups ==
        if failed && group.Some? && group.value.receivers == {} then old(registry.groups) - {GROUP_NAME} else old(registry.groups)
    {
      var done := inFlight[0];
      inFlight := inFlight[1..];
      if !failed {
        wire := wire + [done];
        queue := queue[1..];
        if queue != [] {
          SendQueuedMessages();
        }
      } else {
        writeFailed := true;
        if group.Some? {
          group.value.Leave(this, registry);
        }
      }
    }
  }

  class Group {
    const name: string := GROUP_NAME
    var receivers: set<Session>

    constructor ()
      ensures receivers == {}
    {
      receivers := {};
    }

    method Join(receiver: Session)
      modifies this
      ensures receivers == old(receivers) + {receiver}
    {
      receivers := receivers + {receiver};
    }

    method Leave(receiver: Session, registry: Registry)
      modifies this, registry
      ensures receivers == old(receivers) - {receiver}
      ensures registry.groups == if receivers == {} then old(registry.groups) - {GROUP_NAME} else old(registry.groups)
    {
      receivers := receivers - {receiver};
      if receivers == {} {
        registry.groups := registry.groups - {name};
      }
    }

    /** Every receiver gets the message, in whatever order the set is walked. */
    method SendMessage(data: Event)
      modifies receivers
      ensures forall r :: r in receivers ==> r.View() == Enqueue(old(r.View()), State(data))
    {
      if name == DEFAULT_GROUP {
        return;
      }
      var rest := receivers;
      while rest != {}
        invariant rest <= receivers
        invariant forall r :: r in rest ==> r.View() == old(r.View())
        invariant forall r :: r in receivers - rest ==> r.View() == Enqueue(old(r.View()), State(data))
        decreases |rest|
      {
        var r :| r in rest;
        r.SendMessage(data);
        rest := rest - {r};
      }
    }
  }

  /** What looking a group up may do to the registry: nothing, or add that one key. */
  ghost predicate Looked(before: map<string, Group>, after: map<string, Group>, name: string) {
    name in after && after == before[name := after[name]] && (name in before ==> after == before)
  }

  /** The registry of groups, which the program keeps in a static field. */
  class Registry {
    var groups: map<string, Group>

    constructor ()
      ensures groups == map[]
    {
      groups := map[];
    }

    method GetGroup(name: string) returns (g: Group)
      modifies this
      ensures Looked(old(groups), groups, name) && g == groups[name]
      ensures name !in old(groups) ==> fresh(g) && g.receivers == {}
    {
      if name !in groups {
        var made := new Group();
        groups := groups[name := made];
      }
      g := groups[name];
    }
  }

  class Server {
    const registry: Registry
    // the step system's state, which the objects are kept in agreement with
    ghost var model: ServerView<Session, Group>

    ghost predicate Agrees()
      reads this, registry, model.members.Keys, model.sessions.Keys
    {
      && registry.groups == model.registry
      && (forall g :: g in model.members ==> g.receivers == model.members[g])
      && (forall s :: s in model.sessions ==> s.View() == model.sessions[s])
    }

    ghost predicate Valid()
      reads this, registry, model.members.Keys, model.sessions.Keys
    {
      Agrees() && Inv(model)
    }

    constructor ()
      ensures Valid() && model == ServerView(map[], map[], map[])
    {
      registry := new Registry();
      model := ServerView(map[], map[], map[]);
    }

    /** A connection is accepted and its session started. */
    method AcceptConnection() returns (s: Session, ghost made: Group)
      requires Valid()
      modifies this, registry, model.members.Keys, model.sessions.Keys
      ensures Valid() && fresh(s) && Enabled(old(model), Accept(s, made))
      ensures model == Next(old(model), Accept(s, made))
    {
      s := new Session();
      made := StartSession(s);
      AcceptKeeps(old(model), s, made);
    }

    method StartSession(s: Session) returns (ghost made: Group)
      requires Agrees() && RegistryOk(model)
      requires s !in model.sessions && s.View() == NewSession().(reading := false)
      modifies this, s, registry, model.members.Keys
      ensures CanMake(old(model), DEFAULT_GROUP, made) && old(model).registry.Values <= old(model).members.Keys
      ensures Agrees() && model == OnAccept(old(model), s, made)
    {
      ghost var before := model;
      s.Start(registry);
      made := registry.groups[DEFAULT_GROUP];
      model := OnAccept(before, s, made);
      forall g | g in model.members
        ensures g.receivers == model.members[g]
      {
        assert g != made ==> g in before.members && model.members[g] == before.members[g];
      }
      forall t | t in model.sessions
        ensures t.View() == model.sessions[t]
      {
        assert t != s ==> t in before.sessions && model.sessions[t] == before.sessions[t];
      }
    }

    /** The completion handler of a write. */
    method WriteCompleted(s: Session, failed: bool)
      requires Valid() && s in model.sessions && s.inFlight != []
      modifies this, registry, model.members.Keys, model.sessions.Keys
      ensures Valid()
      ensures model == Next(old(model), if failed then WriteError(s) else WriteDone(s))
    {
      StepKeepsInv(model, if failed then WriteError(s) else WriteDone(s));
      if failed {
        WriteErred(s);
      } else {
        WriteSucceeded(s);
      }
    }

    method WriteSucceeded(s: Session)
      requires Agrees() && s in model.sessions && s.inFlight != [] && s.queue != []
      modifies this, registry, s
      ensures Agrees() && model == old(model).(sessions := old(model).sessions[s := Written(old(model).sessions[s])])
    {
      s.OnWritten(false, registry);
      model := model.(sessions := model.sessions[s := Written(model.sessions[s])]);
    }

    method WriteErred(s: Session)
      requires Agrees() && s in model.sessions && s.inFlight != [] && s.queue != []
      requires s.group.Some? && s.group.value in model.members
      modifies this, registry, s, s.group.value
      ensures Agrees()
      ensures var v := old(model).sessions[s];
        model == LeaveGroup(old(model).(sessions := old(model).sessions[s := WriteLost(v)]), v.group.value, s)
    {
      ghost var v := model.sessions[s];
      s.OnWritten(true, registry);
      model := LeaveGroup(model.(sessions := model.sessions[s := WriteLost(v)]), v.group.value, s);
    }

    /** The completion handler of a read. */
    method ReadCompleted(s: Session, input: Input) returns (ghost made: Group)
      requires Valid() && s in model.sessions && s.reading
      modifies this, registry, model.members.Keys, model.sessions.Keys
      ensures Valid() && Enabled(old(model), Read(s, input, made))
      ensures model == Next(old(model), Read(s, input, made))
    {
      ghost var before := model;
      made := s.group.value;
      match input {
        case Received(command) =>
          match command {
            case Join(name) =>
              made := OnJoin(s, name);
            case Post(data) =>
              PostToGroup(s, data);
            case Version =>
              SendLine(s, VersionReply(SERVER_VERSION));
            case Other =>
          }
        case NotJson =>
          SendLine(s, ErrorReply);
          Quit(s);
        case Invalid =>
          SendLine(s, ErrorReply);
          Quit(s);
        case Failed =>
          Quit(s);
      }
      StepKeepsInv(before, Read(s, input, made));
    }

    method OnJoin(s: Session, name: string) returns (ghost made: Group)
      requires Agrees() && RegistryOk(model) && s in model.sessions
      requires s.group.Some? && s.group.value in model.members
      modifies this, registry, s, model.members.Keys
      ensures Agrees() && CanMake(old(model), name, made)
      ensures model == RelayModel.OnJoin(old(model), s, name, made)
    {
      assert s.group == model.sessions[s].group;
      var g := LookUp(name);
      made := g;
      Move(s, g);
      SendLine(s, Ok);
    }

    /** Into the new group first, then out of the old one, if that is another. */
    method Move(s: Session, g: Group)
      requires Agrees() && s in model.sessions && g in model.members
      requires s.group.Some? && s.group.value in model.members
      modifies this, registry, s, g, s.group.value
      ensures Agrees()
      ensures var was, st2 := old(s.group.value), JoinGroup(SetGroup(old(model), s, g), g, s);
        model == if was != g then LeaveGroup(st2, was, s) else st2
    {
      var oldGroup := s.group;
      Enter(s, g);
      if oldGroup.Some? && oldGroup != s.group {
        Exit(s, oldGroup.value);
      }
    }

    method LookUp(name: string) returns (g: Group)
      requires Agrees() && RegistryOk(model)
      modifies this, registry
      ensures Agrees() && CanMake(old(model), name, g) && (g in old(model).members || fresh(g))
      ensures model == RelayModel.GetGroup(old(model), name, g) && name in model.registry && g == model.registry[name]
    {
      g := registry.GetGroup(name);
      model := RelayModel.GetGroup(model, name, g);
    }

    method Enter(s: Session, g: Group)
      requires Agrees() && s in model.sessions && g in model.members
      modifies this, s, g
      ensures Agrees() && s.group == Some(g)
      ensures model == JoinGroup(SetGroup(old(model), s, g), g, s)
    {
      s.group := Some(g);
      g.Join(s);
      model := JoinGroup(SetGroup(model, s, g), g, s);
    }

    method Exit(s: Session, g: Group)
      requires Agrees() && g in model.members
      modifies this, registry, g
      ensures Agrees() && model == LeaveGroup(old(model), g, s)
    {
      g.Leave(s, registry);
      model := LeaveGroup(model, g, s);
    }

    method SendLine(s: Session, m: Message)
      requires Agrees() && s in model.sessions
      modifies this, s
      ensures Agrees() && model == RelayModel.SendData(old(model), s, m)
    {
      s.SendData(m);
      model := RelayModel.SendData(model, s, m);
    }

    method PostToGroup(s: Session, data: Event)
      requires Valid() && s in model.sessions
      modifies this, model.sessions.Keys
      ensures Agrees() && model == Broadcast(old(model), old(s.group.value), data)
    {
      if s.group.Some? {
        ghost var g := s.group.value;
        assert forall r :: r in g.receivers ==> r in model.sessions;
        s.group.value.SendMessage(data);
        model := Broadcast(model, g, data);
      }
    }

    /** The end of every error path of a read: leave the group, read no more. */
    method Quit(s: Session)
      requires Agrees() && s in model.sessions && s.group.Some? && s.group.value in model.members
      modifies this, registry, model.members.Keys, model.sessions.Keys
      ensures Agrees()
      ensures model == StopReading(LeaveGroup(old(model), old(s.group.value), s), s)
    {
      if s.group.Some? {
        Exit(s, s.group.value);
      }
      s.reading := false;
      model := StopReading(model, s);
    }
  }
}
