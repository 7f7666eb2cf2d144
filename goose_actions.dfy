/**
 * The free-roam action resolver of the goose-duck game: move, task, kill,
 * report, emergency meeting and talk. Each action is a function from the
 * game to the new game and its answer; the lemmas state what the source
 * promises of each, that each keeps the invariant, and that none revives
 * a player or clears an acted flag while free roam goes on (which is what
 * makes the NPC turn loop terminate).
 */
module GooseActions {
  import opened Common
  import opened Events
  import opened GooseIdentity
  import opened GooseRules
  import opened GooseVotes
  import opened GooseWorld
  import opened GooseState
  import opened GooseMeeting
  import opened GooseChat

  /**
   * Free roam went on without a chat left open, and in between nobody was
   * revived and nobody lost their acted flag: the measure of the turn loop
   * did not grow.
   */
  predicate Calm(w: World, r: World)
  {
    w.state.phase == FreeRoam && r.state.phase == FreeRoam && !r.state.conversationActive ==>
      Settled(w.players, r.players)
  }

  /** The players' identities (and so who is alive, and on which team) are as they were. */
  predicate SameFates(a: map<PlayerId, Player>, b: map<PlayerId, Player>)
  {
    b.Keys == a.Keys && forall id :: id in a ==> b[id].identity == a[id].identity
  }

  lemma SameFatesSettled(a: map<PlayerId, Player>, b: map<PlayerId, Player>)
    requires SameFates(a, b) && forall id :: id in a ==> b[id].hasActed == a[id].hasActed
    ensures Settled(a, b)
  {
  }

  /** Identical identities give identical team counts, hence the same verdict. */
  lemma SameFatesVerdict(a: map<PlayerId, Player>, b: map<PlayerId, Player>)
    requires SameFates(a, b)
    ensures WinnerOf(a) == WinnerOf(b)
  {
    forall team: Team ensures TeamAlive(a, team) == TeamAlive(b, team) {
      assert (set id | id in a && OnTeam(a, id, team)) == (set id | id in b && OnTeam(b, id, team));
    }
  }

  // ---------------------------------------------------------------------
  // Move
  // ---------------------------------------------------------------------

  /**
   * `_do_move`: refused unless the target is a room and is connected to
   * the player's room. The player moves and remembers nothing new but
   * what everyone in the target room remembers; two events are logged,
   * the departure at the old room and the arrival at the new one.
   */
  function DoMove(c: Config, w: World, pid: PlayerId, target: Option<RoomId>): Step
    requires pid in w.players
  {
    var p := w.players[pid];
    if target.None? || target.value !in c.rooms then Step(w, Err("Target room does not exist"))
    else if p.location !in c.rooms then Step(w, Fault)
    else if target.value !in c.rooms[p.location].connections then Step(w, Err("Cannot reach this room"))
    else
      var t := target.value;
      var room := c.rooms[t];
      var w1 := w.(players := w.players[pid := p.(location := t, lastAction := "Moved to " + room.name)]);
      var w2 := Emit(w1, PlayerAction, p.name + " left the room", Some(p.location));
      var w3 := Emit(w2, PlayerAction, p.name + " moved to " + room.name, Some(t));
      Step(w3.(players := RecordForRoom(w3.players, t, p.name + " arrived at " + room.name)), Ok)
  }

  /**
   * A move is refused, changing nothing, unless the target is a room
   * connected to the player's; an accepted move puts the player in the
   * target room and appends exactly two events: leaving, scoped to the old
   * room, then arriving, scoped to the new one. Nothing else but last
   * actions and memories of players changes.
   */
  lemma DoMoveSpec(c: Config, w: World, pid: PlayerId, target: Option<RoomId>)
    requires pid in w.players && w.players[pid].location in c.rooms
    ensures var r := DoMove(c, w, pid, target);
            var p := w.players[pid];
            (r.out.Err? <==> !(target.Some? && target.value in c.rooms &&
                               target.value in c.rooms[p.location].connections)) &&
            (r.out.Err? ==> r.w == w) &&
            (!r.out.Err? ==>
               r.out == Ok &&
               r.w.players[pid].location == target.value &&
               |r.w.events| == |w.events| + 2 && r.w.events[..|w.events|] == w.events &&
               r.w.events[|w.events|].location == Some(p.location) &&
               r.w.events[|w.events|].text == p.name + " left the room" &&
               r.w.events[|w.events| + 1].location == target &&
               r.w == w.(players := r.w.players, events := r.w.events) &&
               r.w.players.Keys == w.players.Keys &&
               (forall id :: id in w.players && id != pid ==> r.w.players[id].location == w.players[id].location))
  {
  }

  /** A move keeps the invariant and the turn-loop measure. */
  lemma DoMoveOk(c: Config, w: World, pid: PlayerId, target: Option<RoomId>)
    requires WorldOk(c, w) && pid in w.players
    ensures WorldOk(c, DoMove(c, w, pid, target).w)
    ensures Calm(w, DoMove(c, w, pid, target).w)
  {
    var p := w.players[pid];
    if target.Some? && target.value in c.rooms && p.location in c.rooms &&
       target.value in c.rooms[p.location].connections {
      var t := target.value;
      var room := c.rooms[t];
      var q := p.(location := t, lastAction := "Moved to " + room.name);
      assert TasksConsistent(q) by {
        assert forall k :: Progress(q, k) == Progress(p, k);
      }
      SetPlayerOk(c, w, pid, q);
      ReplaceSettled(w.players, pid, q);
      var w1 := w.(players := w.players[pid := q]);
      var w3 := Emit(Emit(w1, PlayerAction, p.name + " left the room", Some(p.location)),
                     PlayerAction, p.name + " moved to " + room.name, Some(t));
      assert WorldOk(c, w3);
      var ps := RecordForRoom(w3.players, t, p.name + " arrived at " + room.name);
      assert DoMove(c, w, pid, target).w == w3.(players := ps);
      RecordsOnlyMemories(w3.players, t, p.name + " arrived at " + room.name, []);
      MemoriesWorldOk(c, w3, ps);
      OnlyMemoriesSettled(w3.players, ps);
      SettledTrans(w.players, w3.players, ps);
    }
  }

  // ---------------------------------------------------------------------
  // Task
  // ---------------------------------------------------------------------

  /** The text of a task step: the task and its progress out of `TASK_STEPS`. */
  function TaskText(t: TaskId, np: int): string
  {
    t + " (" + Show(np) + "/2)"
  }

  /**
   * One step of work on `t`: progress rises by one, the task is listed as
   * completed on reaching `TASK_STEPS` unless it is listed already, and
   * the last action says so.
   */
  function Worked(p: Player, t: TaskId): Player
  {
    var np := Progress(p, t) + 1;
    var done := if np >= TASK_STEPS && t !in p.tasksCompleted then p.tasksCompleted + [t] else p.tasksCompleted;
    p.(tasksProgress := p.tasksProgress[t := np], lastAction := "Doing task " + TaskText(t, np),
       tasksCompleted := done)
  }

  /**
   * `_do_task`: refused unless the task belongs to the player's room, or
   * when it is already done. Otherwise the player does one step of it and
   * everyone in the room remembers the player at work.
   */
  function DoTask(c: Config, w: World, pid: PlayerId, task: Option<TaskId>): Step
    requires pid in w.players
  {
    var p := w.players[pid];
    if p.location !in c.rooms || task.None? || task.value !in c.rooms[p.location].tasks then
      Step(w, Err("No such task here"))
    else if Progress(p, task.value) >= TASK_STEPS then Step(w, Err("Task already completed"))
    else
      var t := task.value;
      var w1 := w.(players := w.players[pid := Worked(p, t)]);
      Step(w1.(players := RecordForRoom(w1.players, p.location,
                                        p.name + " is doing task " + TaskText(t, Progress(p, t) + 1))), Ok)
  }

  /**
   * A task is refused, changing nothing, exactly when it is not in the
   * player's room or already done; an accepted one logs no event.
   */
  lemma DoTaskRefused(c: Config, w: World, pid: PlayerId, task: Option<TaskId>)
    requires pid in w.players
    ensures var r := DoTask(c, w, pid, task);
            var p := w.players[pid];
            (r.out.Err? <==> !(p.location in c.rooms && task.Some? && task.value in c.rooms[p.location].tasks &&
                               Progress(p, task.value) < TASK_STEPS)) &&
            (r.out.Err? ==> r.w == w) &&
            (!r.out.Err? ==> r.out == Ok && r.w.events == w.events && r.w.state == w.state)
  {
  }

  /**
   * An accepted task step raises that task's progress by one and no other;
   * the task is listed as completed exactly when it reaches `TASK_STEPS`,
   * and never twice.
   */
  lemma DoTaskAdvances(c: Config, w: World, pid: PlayerId, task: Option<TaskId>)
    requires pid in w.players && TasksConsistent(w.players[pid])
    requires var p := w.players[pid];
             p.location in c.rooms && task.Some? && task.value in c.rooms[p.location].tasks &&
             Progress(p, task.value) < TASK_STEPS
    ensures var q := DoTask(c, w, pid, task).w.players[pid];
            var p := w.players[pid];
            Progress(q, task.value) == Progress(p, task.value) + 1 &&
            (task.value in q.tasksCompleted <==> Progress(q, task.value) >= TASK_STEPS) &&
            TasksConsistent(q) &&
            (forall k :: k != task.value ==> Progress(q, k) == Progress(p, k))
  {
    var p := w.players[pid];
    var t := task.value;
    var w1 := w.(players := w.players[pid := Worked(p, t)]);
    var ps := RecordForRoom(w1.players, p.location, p.name + " is doing task " + TaskText(t, Progress(p, t) + 1));
    assert DoTask(c, w, pid, task).w.players == ps;
    var q := ps[pid];
    var wp := Worked(p, t);
    assert q.tasksProgress == wp.tasksProgress && q.tasksCompleted == wp.tasksCompleted;
    assert forall k :: Progress(q, k) == Progress(wp, k);
    TaskStepConsistent(p, t);
  }

  /** One step of a task keeps the completion bookkeeping consistent. */
  lemma TaskStepConsistent(p: Player, t: TaskId)
    requires TasksConsistent(p) && Progress(p, t) < TASK_STEPS
    ensures TasksConsistent(Worked(p, t))
    ensures t in Worked(p, t).tasksCompleted <==> Progress(Worked(p, t), t) >= TASK_STEPS
  {
    assert t !in p.tasksCompleted;
    if Progress(p, t) + 1 >= TASK_STEPS {
      assert (p.tasksCompleted + [t])[..|p.tasksCompleted|] == p.tasksCompleted;
    }
  }

  /** A task keeps the invariant and the turn-loop measure. */
  lemma DoTaskOk(c: Config, w: World, pid: PlayerId, task: Option<TaskId>)
    requires WorldOk(c, w) && pid in w.players
    ensures WorldOk(c, DoTask(c, w, pid, task).w)
    ensures Calm(w, DoTask(c, w, pid, task).w)
  {
    var p := w.players[pid];
    if p.location in c.rooms && task.Some? && task.value in c.rooms[p.location].tasks &&
       Progress(p, task.value) < TASK_STEPS {
      var t := task.value;
      var text := p.name + " is doing task " + TaskText(t, Progress(p, t) + 1);
      var w1 := w.(players := w.players[pid := Worked(p, t)]);
      assert DoTask(c, w, pid, task) == Step(w1.(players := RecordForRoom(w1.players, p.location, text)), Ok);
      WorkedOk(c, w, pid, t, text);
    }
  }

  /** One step of a task, whatever the room is told, keeps the invariant and settles nobody. */
  lemma WorkedOk(c: Config, w: World, pid: PlayerId, t: TaskId, text: string)
    requires WorldOk(c, w) && pid in w.players && Progress(w.players[pid], t) < TASK_STEPS
    ensures var w1 := w.(players := w.players[pid := Worked(w.players[pid], t)]);
            var r := w1.(players := RecordForRoom(w1.players, w.players[pid].location, text));
            WorldOk(c, r) && Settled(w.players, r.players)
  {
    var p := w.players[pid];
    var q := Worked(p, t);
    TaskStepConsistent(p, t);
    SetPlayerOk(c, w, pid, q);
    ReplaceSettled(w.players, pid, q);
    var w1 := w.(players := w.players[pid := q]);
    var ps := RecordForRoom(w1.players, p.location, text);
    RecordsOnlyMemories(w1.players, p.location, text, []);
    MemoriesWorldOk(c, w1, ps);
    OnlyMemoriesSettled(w1.players, ps);
    SettledTrans(w.players, w1.players, ps);
  }

  // ---------------------------------------------------------------------
  // Kill
  // ---------------------------------------------------------------------

  /**
   * The blow of `_do_kill` when it is not parried: the victim dies, the
   * killer spends one use, the killer's last action names the victim and
   * the victim's names the killer (in that order, so a self-kill ends with
   * the victim's text).
   */
  function Wound(ps: map<PlayerId, Player>, killer: PlayerId, victim: PlayerId): (r: map<PlayerId, Player>)
    requires killer in ps && victim in ps && ps[killer].identity.Some? && ps[victim].identity.Some?
    ensures KeepsRecords(ps, r)
    ensures r[killer].identity.Some? && r[victim].identity.Some?
  {
    var v := ps[victim];
    var p1 := ps[victim := v.(identity := Some(v.identity.value.(isAlive := false)))];
    var k := p1[killer];
    var p2 := p1[killer := k.(identity := Some(k.identity.value.UseKill()), lastAction := "Killed " + v.name)];
    var r := p2[victim := p2[victim].(lastAction := "Killed by " + ps[killer].name)];
    RetouchKeepsRecords(ps, victim, p1[victim]);
    RetouchKeepsRecords(p1, killer, p2[killer]);
    RetouchKeepsRecords(p2, victim, r[victim]);
    KeepsRecordsTrans(ps, p1, p2);
    KeepsRecordsTrans(ps, p2, r);
    r
  }

  /**
   * What a landed blow does to the players: the victim is dead, the killer
   * (when someone else) has spent one use and is otherwise as alive as
   * before, roles are kept, nobody else changes, and nobody revives.
   */
  lemma WoundSpec(ps: map<PlayerId, Player>, killer: PlayerId, victim: PlayerId)
    requires killer in ps && victim in ps && ps[killer].identity.Some? && ps[victim].identity.Some?
    ensures var r := Wound(ps, killer, victim);
            !r[victim].IsAlive() &&
            r[victim].identity.value.role == ps[victim].identity.value.role &&
            r[killer].identity.value.role == ps[killer].identity.value.role &&
            (killer != victim ==> r[killer].identity == Some(ps[killer].identity.value.UseKill())) &&
            (forall id :: id in ps && id != killer && id != victim ==> r[id] == ps[id]) &&
            Settled(ps, r)
  {
  }

  /** The blow lands: the wound, the crime event at the scene and the memory of everyone there. */
  function Bury(c: Config, w: World, killer: PlayerId, victim: PlayerId): (r: World)
    requires killer in w.players && victim in w.players
    requires w.players[killer].identity.Some? && w.players[victim].identity.Some?
    requires w.players[victim].location in c.rooms
    ensures r == w.(players := r.players, events := r.events)
    ensures r.players.Keys == w.players.Keys
    ensures forall id :: id in w.players ==>
              r.players[id] == Wound(w.players, killer, victim)[id].(memories := r.players[id].memories)
  {
    var ps := Wound(w.players, killer, victim);
    var loc := w.players[victim].location;
    var vname := w.players[victim].name;
    var rec := RecordForRoom(ps, loc, KilledByText(vname, w.players[killer].name));
    Emit(w.(players := rec), Crime, FoundDeadText(vname, c.rooms[loc].name), Some(loc))
  }

  /** The crime announcement. */
  function FoundDeadText(vname: string, room: string): string
  {
    "💀 " + vname + " was found dead in " + room + "!"
  }

  /** What the witnesses remember. */
  function KilledByText(vname: string, kname: string): string
  {
    vname + " was killed by " + kname
  }

  /** A sheriff who killed a good player dies as well, announced at the scene. */
  function Backfire(w: World, killer: PlayerId, victim: PlayerId, kname: string, vname: string, loc: RoomId): (r: World)
    requires killer in w.players && victim in w.players
    requires w.players[killer].identity.Some? && w.players[victim].identity.Some?
    ensures r == w.(players := r.players, events := r.events)
  {
    var kid := w.players[killer].identity.value;
    if kid.role.roleType == Sheriff && w.players[victim].identity.value.role.team == Good then
      var w3 := w.(players := w.players[killer := w.players[killer].(identity := Some(kid.(isAlive := false)))]);
      Emit(w3, Critical, "⚖️ " + kname + " mistakenly killed a goose and died together with " + vname + "!", Some(loc))
    else w
  }

  /** A landed blow with its consequences. */
  function Strike(c: Config, w: World, killer: PlayerId, victim: PlayerId): (r: World)
    requires killer in w.players && victim in w.players
    requires w.players[killer].identity.Some? && w.players[victim].identity.Some?
    requires w.players[victim].location in c.rooms
    ensures r == w.(players := r.players, events := r.events)
  {
    var w2 := Bury(c, w, killer, victim);
    Backfire(w2, killer, victim, w.players[killer].name, w.players[victim].name, w.players[victim].location)
  }

  /** The victim of a landed blow is a Canadian goose and the killer survived it. */
  predicate CanadianTrigger(ps: map<PlayerId, Player>, killer: PlayerId, victim: PlayerId)
  {
    killer in ps && victim in ps && ps[killer].identity.Some? && ps[victim].identity.Some? &&
    ps[victim].identity.value.role.roleType == Canadian && ps[killer].identity.value.isAlive
  }

  /** A parried blow: the protection is used up and the attempt is announced to all, nobody dies. */
  function Parry(w: World, victim: PlayerId): (r: World)
    requires victim in w.players && w.players[victim].identity.Some?
    ensures r == w.(players := r.players, events := r.events)
  {
    var vp := w.players[victim];
    var w1 := w.(players := w.players[victim := vp.(identity := Some(vp.identity.value.(isProtected := false)))]);
    Emit(w1, System, "Someone tried to attack " + vp.name + ", but they were protected!", None)
  }

  /**
   * `_do_kill`: refused when either player is unknown, when the killer
   * cannot kill, or when they are in different rooms; a victim without an
   * identity raises. A protected victim survives and loses the
   * protection; otherwise the blow lands. Either way the win condition is
   * checked, and when the game goes on and a Canadian goose died at the
   * hands of a surviving killer, the killer reports the body at once.
   */
  function DoKill(c: Config, w: World, killer: PlayerId, victim: Option<PlayerId>, brain: Brain): Step
    requires killer in w.players
  {
    if victim.None? || victim.value !in w.players then Step(w, Err("Player does not exist"))
    else if !w.players[killer].CanKill() then Step(w, Err("Cannot use kill ability"))
    else if w.players[killer].location != w.players[victim.value].location then
      Step(w, Err("Target is not in the same room"))
    else if w.players[victim.value].identity.None? then Step(w, Fault)
    else if w.players[victim.value].identity.value.isProtected then Step(CheckWin(Parry(w, victim.value)), Ok)
    else if w.players[victim.value].location !in c.rooms then
      Step(w.(players := Wound(w.players, killer, victim.value)), Fault)
    else Aftermath(c, Strike(c, w, killer, victim.value), killer, victim.value, brain)
  }

  /**
   * The end of a landed kill: the win check, then the forced report of a
   * Canadian goose's body when the game goes on.
   */
  function Aftermath(c: Config, w: World, killer: PlayerId, victim: PlayerId, brain: Brain): Step
  {
    var w2 := CheckWin(w);
    if w2.state.phase != GameOver && CanadianTrigger(w.players, killer, victim) then
      StartDiscussion(c, w2, killer, false, Some(victim), brain)
    else Step(w2, Ok)
  }

  /** `after` differs from `before` at most in locations and memories. */
  predicate Moved(before: map<PlayerId, Player>, after: map<PlayerId, Player>)
  {
    after.Keys == before.Keys &&
    forall id :: id in before ==>
      after[id] == before[id].(location := after[id].location, memories := after[id].memories)
  }

  lemma MovedSameFates(a: map<PlayerId, Player>, b: map<PlayerId, Player>)
    requires Moved(a, b)
    ensures SameFates(a, b)
  {
    forall id | id in a ensures b[id].identity == a[id].identity {
      assert b[id] == a[id].(location := b[id].location, memories := b[id].memories);
    }
  }

  lemma MovedTrans(a: map<PlayerId, Player>, b: map<PlayerId, Player>, d: map<PlayerId, Player>)
    requires Moved(a, b) && Moved(b, d)
    ensures Moved(a, d)
  {
    forall id | id in a ensures d[id] == a[id].(location := d[id].location, memories := d[id].memories) {
      assert b[id] == a[id].(location := b[id].location, memories := b[id].memories);
    }
  }

  /** The teleport and the rotation only move players, and the meeting goes on or votes. */
  lemma ConveneMoves(c: Config, w: World, brain: Brain)
    requires w.state.phase == Discussion && 0 <= w.state.currentSpeakerIndex
    ensures Moved(w.players, Convene(c, w, brain).players)
    ensures Convene(c, w, brain).state.phase in {Discussion, Voting}
  {
    var t := w.(players := Teleport(w.players, c.meetingRoom));
    DiscussSpec(t, brain);
    assert Moved(w.players, t.players);
  }

  /**
   * A meeting moves players and gives them memories but changes nothing
   * else about them, and leaves free roam behind, whether it starts or
   * raises.
   */
  lemma StartDiscussionFates(c: Config, w: World, reporter: PlayerId, emergency: bool, body: Option<PlayerId>,
                             brain: Brain)
    ensures var r := StartDiscussion(c, w, reporter, emergency, body, brain);
            Moved(w.players, r.w.players) && SameFates(w.players, r.w.players) &&
            r.w.state.phase in {Discussion, Voting}
  {
    var r := StartDiscussion(c, w, reporter, emergency, body, brain);
    if reporter in w.players && emergency {
      var name := w.players[reporter].name;
      var w3 := Emit(OpenMeeting(w, reporter), Critical, "🚨 " + name + " called an emergency meeting!", None);
      MeetingMoves(c, w, w3, name + " called an emergency meeting", brain);
      assert r.w == Convene(c, w3.(players := RecordForAll(w3.players, name + " called an emergency meeting")), brain);
    } else if reporter in w.players && body.Some? && body.value in w.players {
      var name := w.players[reporter].name;
      var dead := w.players[body.value].name;
      var w1 := OpenMeeting(w, reporter);
      var w2 := w1.(state := w1.state.(bodyLocation := Some(w.players[body.value].location)));
      var w3 := Emit(w2, Critical, "☠️ " + name + " found " + dead + "'s body!", None);
      MeetingMoves(c, w, w3, name + " reported " + dead + "'s body", brain);
      assert r.w == Convene(c, w3.(players := RecordForAll(w3.players, name + " reported " + dead + "'s body")), brain);
    } else {
      assert r.w.players == w.players;
    }
    MovedSameFates(w.players, r.w.players);
  }

  lemma MeetingMoves(c: Config, w: World, w3: World, text: string, brain: Brain)
    requires w3.players == w.players && w3.state.phase == Discussion && w3.state.currentSpeakerIndex == 0
    ensures var r := Convene(c, w3.(players := RecordForAll(w3.players, text)), brain);
            Moved(w.players, r.players) && r.state.phase in {Discussion, Voting}
  {
    var pre := w3.(players := RecordForAll(w3.players, text));
    ConveneMoves(c, pre, brain);
    assert Moved(w.players, pre.players);
    MovedTrans(w.players, pre.players, Convene(c, pre, brain).players);
  }

  /** A kill is refused, changing nothing, exactly in the three cases the source checks. */
  lemma DoKillRefused(c: Config, w: World, killer: PlayerId, victim: Option<PlayerId>, brain: Brain)
    requires killer in w.players
    ensures var r := DoKill(c, w, killer, victim, brain);
            (r.out.Err? <==> victim.None? || victim.value !in w.players || !w.players[killer].CanKill() ||
                             w.players[killer].location != w.players[victim.value].location) &&
            (r.out.Err? ==> r.w == w)
  {
  }

  /**
   * A protected victim survives: the protection is used up, nobody's life
   * and the killer's uses stay as they were, one event is logged, and the
   * win condition is still checked.
   */
  lemma DoKillParried(c: Config, w: World, killer: PlayerId, victim: PlayerId, brain: Brain)
    requires killer in w.players && victim in w.players && w.players[killer].CanKill()
    requires w.players[killer].location == w.players[victim].location
    requires w.players[victim].identity.Some? && w.players[victim].identity.value.isProtected
    ensures var r := DoKill(c, w, killer, Some(victim), brain);
            r.out == Ok && r.w.players.Keys == w.players.Keys &&
            r.w.players[victim].identity == Some(w.players[victim].identity.value.(isProtected := false)) &&
            (forall id :: id in w.players && id != victim ==> r.w.players[id] == w.players[id]) &&
            |r.w.events| == |w.events| + 1 &&
            (WinnerOf(r.w.players).Some? ==>
               r.w.state.phase == GameOver && r.w.state.winner == WinnerOf(r.w.players))
  {
  }

  /**
   * A landed blow: the victim dies, a killer other than the victim spends
   * one use, a sheriff whose victim was good dies too, and otherwise the
   * killer lives on; roles are kept and nobody revives.
   */
  lemma StrikeSpec(c: Config, w: World, killer: PlayerId, victim: PlayerId)
    requires killer in w.players && victim in w.players
    requires w.players[killer].identity.Some? && w.players[victim].identity.Some?
    requires w.players[victim].location in c.rooms
    ensures var r := Strike(c, w, killer, victim).players;
            var kid := w.players[killer].identity.value;
            var vid := w.players[victim].identity.value;
            r.Keys == w.players.Keys &&
            r[killer].identity.Some? && r[victim].identity.Some? &&
            !r[victim].IsAlive() &&
            r[victim].identity.value.role == vid.role && r[killer].identity.value.role == kid.role &&
            (killer != victim ==>
               r[killer].identity.value.killUsesRemaining == kid.UseKill().killUsesRemaining &&
               (r[killer].identity.value.isAlive <==>
                  kid.isAlive && !(kid.role.roleType == Sheriff && vid.role.team == Good))) &&
            (forall id :: id in w.players && id != killer && id != victim ==>
               r[id].identity == w.players[id].identity) &&
            Settled(w.players, r)
  {
    BurySpec(c, w, killer, victim);
    var w2 := Bury(c, w, killer, victim);
    BackfireSpec(w2, killer, victim, w.players[killer].name, w.players[victim].name, w.players[victim].location);
    SettledTrans(w.players, w2.players, Strike(c, w, killer, victim).players);
  }

  lemma BurySpec(c: Config, w: World, killer: PlayerId, victim: PlayerId)
    requires killer in w.players && victim in w.players
    requires w.players[killer].identity.Some? && w.players[victim].identity.Some?
    requires w.players[victim].location in c.rooms
    ensures var r := Bury(c, w, killer, victim).players;
            var kid := w.players[killer].identity.value;
            var vid := w.players[victim].identity.value;
            r[killer].identity.Some? && r[victim].identity.Some? &&
            !r[victim].IsAlive() &&
            r[victim].identity.value.role == vid.role && r[killer].identity.value.role == kid.role &&
            (killer != victim ==> r[killer].identity == Some(kid.UseKill())) &&
            (forall id :: id in w.players && id != killer && id != victim ==>
               r[id].identity == w.players[id].identity) &&
            Settled(w.players, r)
  {
    var ps := Wound(w.players, killer, victim);
    WoundSpec(w.players, killer, victim);
    var r := Bury(c, w, killer, victim).players;
    assert forall id :: id in ps ==> r[id].identity == ps[id].identity && r[id].hasActed == ps[id].hasActed;
  }

  lemma BackfireSpec(w: World, killer: PlayerId, victim: PlayerId, kname: string, vname: string, loc: RoomId)
    requires killer in w.players && victim in w.players
    requires w.players[killer].identity.Some? && w.players[victim].identity.Some?
    ensures var r := Backfire(w, killer, victim, kname, vname, loc).players;
            var kid := w.players[killer].identity.value;
            r.Keys == w.players.Keys &&
            (forall id :: id in w.players && id != killer ==> r[id] == w.players[id]) &&
            r[killer].identity ==
              (if kid.role.roleType == Sheriff && w.players[victim].identity.value.role.team == Good
               then Some(kid.(isAlive := false)) else Some(kid)) &&
            Settled(w.players, r)
  {
    var kid := w.players[killer].identity.value;
    if kid.role.roleType == Sheriff && w.players[victim].identity.value.role.team == Good {
      ReplaceSettled(w.players, killer, w.players[killer].(identity := Some(kid.(isAlive := false))));
    }
  }

  /** A landed blow keeps the invariant: only records, liveness and memories change. */
  lemma StrikeOk(c: Config, w: World, killer: PlayerId, victim: PlayerId)
    requires WorldOk(c, w)
    requires killer in w.players && victim in w.players
    requires w.players[killer].identity.Some? && w.players[victim].identity.Some?
    requires w.players[victim].location in c.rooms
    ensures WorldOk(c, Strike(c, w, killer, victim))
  {
    BuryOk(c, w, killer, victim);
    var w2 := Bury(c, w, killer, victim);
    BackfireOk(c, w2, killer, victim, w.players[killer].name, w.players[victim].name, w.players[victim].location);
  }

  lemma BuryOk(c: Config, w: World, killer: PlayerId, victim: PlayerId)
    requires WorldOk(c, w)
    requires killer in w.players && victim in w.players
    requires w.players[killer].identity.Some? && w.players[victim].identity.Some?
    requires w.players[victim].location in c.rooms
    ensures WorldOk(c, Bury(c, w, killer, victim))
  {
    var ps := Wound(w.players, killer, victim);
    RecordsWorldOk(c, w, ps);
    var loc := w.players[victim].location;
    var vname := w.players[victim].name;
    var w1 := Emit(w.(players := ps), Crime, "💀 " + vname + " was found dead in " + c.rooms[loc].name + "!", Some(loc));
    assert WorldOk(c, w1);
    var text := vname + " was killed by " + w.players[killer].name;
    var ps2 := RecordForRoom(w1.players, loc, text);
    assert Bury(c, w, killer, victim) == w1.(players := ps2);
    RecordsOnlyMemories(w1.players, loc, text, []);
    MemoriesWorldOk(c, w1, ps2);
  }

  lemma BackfireOk(c: Config, w: World, killer: PlayerId, victim: PlayerId, kname: string, vname: string, loc: RoomId)
    requires WorldOk(c, w)
    requires killer in w.players && victim in w.players
    requires w.players[killer].identity.Some? && w.players[victim].identity.Some?
    ensures WorldOk(c, Backfire(w, killer, victim, kname, vname, loc))
  {
    var kid := w.players[killer].identity.value;
    if kid.role.roleType == Sheriff && w.players[victim].identity.value.role.team == Good {
      var k := w.players[killer].(identity := Some(kid.(isAlive := false)));
      assert TasksConsistent(k) by {
        assert forall t :: Progress(k, t) == Progress(w.players[killer], t);
      }
      SetPlayerOk(c, w, killer, k);
    }
  }

  /**
   * After a landed blow the game answers Ok; nobody's identity changes any
   * more; a verdict of the win check always ends the game with that
   * winner; and the Canadian goose's body is reported by the killer unless
   * the game is over.
   */
  lemma AftermathSpec(c: Config, w: World, killer: PlayerId, victim: PlayerId, brain: Brain)
    requires killer in w.players && victim in w.players
    ensures var r := Aftermath(c, w, killer, victim, brain);
            r.out == Ok && SameFates(w.players, r.w.players) &&
            (WinnerOf(r.w.players).Some? ==>
               r.w.state.phase == GameOver && r.w.state.winner == WinnerOf(r.w.players)) &&
            (CanadianTrigger(w.players, killer, victim) ==>
               r.w.state.phase == GameOver || (MeetingUnderway(r.w) && r.w.state.reporter == Some(killer))) &&
            (!CanadianTrigger(w.players, killer, victim) ==> r.w == CheckWin(w))
  {
    var w2 := CheckWin(w);
    if w2.state.phase != GameOver && CanadianTrigger(w.players, killer, victim) {
      StartDiscussionSpec(c, w2, killer, false, Some(victim), brain);
      StartDiscussionFates(c, w2, killer, false, Some(victim), brain);
      var r := StartDiscussion(c, w2, killer, false, Some(victim), brain);
      SameFatesVerdict(w.players, r.w.players);
    }
  }

  /**
   * A kill that passes the checks and is not parried: the answer is Ok,
   * the victim is dead, a killer other than the victim has spent one use
   * and survives unless a sheriff killed a good player; everyone else
   * keeps their identity.
   */
  lemma DoKillLands(c: Config, w: World, killer: PlayerId, victim: PlayerId, brain: Brain)
    requires killer in w.players && victim in w.players && w.players[killer].CanKill()
    requires w.players[killer].location == w.players[victim].location
    requires w.players[victim].identity.Some? && !w.players[victim].identity.value.isProtected
    requires w.players[victim].location in c.rooms
    ensures var r := DoKill(c, w, killer, Some(victim), brain);
            var ps := r.w.players;
            var kid := w.players[killer].identity.value;
            var vid := w.players[victim].identity.value;
            r.out == Ok && ps.Keys == w.players.Keys && !ps[victim].IsAlive() &&
            (killer != victim ==>
               ps[killer].identity.Some? &&
               ps[killer].identity.value.killUsesRemaining == kid.UseKill().killUsesRemaining &&
               (ps[killer].IsAlive() <==> !(kid.role.roleType == Sheriff && vid.role.team == Good))) &&
            (forall id :: id in w.players && id != killer && id != victim ==>
               ps[id].identity == w.players[id].identity)
  {
    var w1 := Strike(c, w, killer, victim);
    assert DoKill(c, w, killer, Some(victim), brain) == Aftermath(c, w1, killer, victim, brain);
    StrikeSpec(c, w, killer, victim);
    AftermathSpec(c, w1, killer, victim, brain);
  }

  /**
   * Every kill that is not refused and does not raise checks the win
   * condition: a verdict always ends the game with that winner, even when
   * the blow was parried.
   */
  lemma DoKillChecksWin(c: Config, w: World, killer: PlayerId, victim: Option<PlayerId>, brain: Brain)
    requires killer in w.players
    ensures var r := DoKill(c, w, killer, victim, brain);
            r.out == Ok ==>
              WinnerOf(r.w.players).Some? ==> r.w.state.phase == GameOver && r.w.state.winner == WinnerOf(r.w.players)
  {
    if victim.Some? && victim.value in w.players && w.players[killer].CanKill() &&
       w.players[killer].location == w.players[victim.value].location &&
       w.players[victim.value].identity.Some? {
      var v := victim.value;
      if w.players[v].identity.value.isProtected {
        var pw := Parry(w, v);
        assert DoKill(c, w, killer, victim, brain) == Step(CheckWin(pw), Ok);
        assert CheckWin(pw).players == pw.players;
      } else if w.players[v].location in c.rooms {
        var w1 := Strike(c, w, killer, v);
        assert DoKill(c, w, killer, victim, brain) == Aftermath(c, w1, killer, v, brain);
        StrikeSpec(c, w, killer, v);
        AftermathSpec(c, w1, killer, v, brain);
      }
    }
  }

  /**
   * A Canadian goose killed by a killer who survives it forces a meeting
   * reported by the killer at once, unless the kill ended the game.
   */
  lemma DoKillCanadian(c: Config, w: World, killer: PlayerId, victim: PlayerId, brain: Brain)
    requires killer in w.players && victim in w.players && killer != victim && w.players[killer].CanKill()
    requires w.players[killer].location == w.players[victim].location
    requires w.players[victim].identity.Some? && !w.players[victim].identity.value.isProtected
    requires w.players[victim].location in c.rooms
    requires w.players[victim].identity.value.role.roleType == Canadian
    requires w.players[killer].identity.value.role.roleType != Sheriff
    ensures var r := DoKill(c, w, killer, Some(victim), brain);
            r.out == Ok &&
            (r.w.state.phase == GameOver || (MeetingUnderway(r.w) && r.w.state.reporter == Some(killer)))
  {
    var w1 := Strike(c, w, killer, victim);
    assert DoKill(c, w, killer, Some(victim), brain) == Aftermath(c, w1, killer, victim, brain);
    StrikeSpec(c, w, killer, victim);
    assert CanadianTrigger(w1.players, killer, victim);
    AftermathSpec(c, w1, killer, victim, brain);
  }

  /** The end of a landed kill keeps the invariant, and stays in free roam only without a meeting. */
  lemma AftermathOk(c: Config, w: World, killer: PlayerId, victim: PlayerId, brain: Brain)
    requires ConfigOk(c) && WorldOk(c, w)
    ensures var r := Aftermath(c, w, killer, victim, brain);
            WorldOk(c, r.w) && (r.w.state.phase == FreeRoam ==> r.w.players == w.players)
  {
    var w2 := CheckWin(w);
    CheckWinOk(c, w);
    if w2.state.phase != GameOver && CanadianTrigger(w.players, killer, victim) {
      StartDiscussionOk(c, w2, killer, false, Some(victim), brain);
      StartDiscussionFates(c, w2, killer, false, Some(victim), brain);
    }
  }

  /** A parried blow, followed by the win check, keeps the invariant and settles nobody. */
  lemma ParryOk(c: Config, w: World, v: PlayerId)
    requires ConfigOk(c) && WorldOk(c, w) && v in w.players && w.players[v].identity.Some?
    ensures WorldOk(c, CheckWin(Parry(w, v)))
    ensures Calm(w, CheckWin(Parry(w, v)))
  {
    var vp := w.players[v];
    var q := vp.(identity := Some(vp.identity.value.(isProtected := false)));
    RecordsWorldOk(c, w, w.players[v := q]);
    ReplaceSettled(w.players, v, q);
    var pw := Parry(w, v);
    assert WorldOk(c, pw) && pw.players == w.players[v := q];
    CheckWinOk(c, pw);
  }

  /** A kill attempt keeps the invariant and the turn-loop measure, whatever its outcome. */
  lemma DoKillOk(c: Config, w: World, killer: PlayerId, victim: Option<PlayerId>, brain: Brain)
    requires ConfigOk(c) && WorldOk(c, w) && killer in w.players
    ensures WorldOk(c, DoKill(c, w, killer, victim, brain).w)
    ensures Calm(w, DoKill(c, w, killer, victim, brain).w)
  {
    if victim.Some? && victim.value in w.players && w.players[killer].CanKill() &&
       w.players[killer].location == w.players[victim.value].location &&
       w.players[victim.value].identity.Some? {
      var v := victim.value;
      var vp := w.players[v];
      assert vp.location in c.rooms;
      if vp.identity.value.isProtected {
        ParryOk(c, w, v);
      } else {
        var w1 := Strike(c, w, killer, v);
        StrikeOk(c, w, killer, v);
        StrikeSpec(c, w, killer, v);
        AftermathOk(c, w1, killer, v, brain);
      }
    }
  }

  // ---------------------------------------------------------------------
  // Report and emergency meeting
  // ---------------------------------------------------------------------

  /** How Python formats an optional id: the id itself, or `None`. */
  function IdText(id: Option<PlayerId>): string
  {
    if id.Some? then id.value else "None"
  }

  /**
   * `_do_report`: the reporter (when known) notes the report, then the
   * meeting starts. Neither the phase nor the room nor the body's death
   * is checked.
   */
  function DoReport(c: Config, w: World, pid: PlayerId, body: Option<PlayerId>, brain: Brain): Step
  {
    StartDiscussion(c, Reporting(w, pid, body), pid, false, body, brain)
  }

  /** The report noted as the reporter's last action, when the reporter is known. */
  function Reporting(w: World, pid: PlayerId, body: Option<PlayerId>): (r: World)
    ensures r == w.(players := r.players) && r.players.Keys == w.players.Keys
    ensures forall id :: id in w.players ==> r.players[id] == w.players[id].(lastAction := r.players[id].lastAction)
  {
    if pid in w.players
    then w.(players := w.players[pid := w.players[pid].(lastAction := "Reported " + IdText(body) + "'s body")])
    else w
  }

  /**
   * A report by a known player of a known body always starts a meeting
   * with the reporter recorded, wherever the body is and whether or not
   * it is dead.
   */
  lemma DoReportMeets(c: Config, w: World, pid: PlayerId, body: PlayerId, brain: Brain)
    requires pid in w.players && body in w.players
    ensures var r := DoReport(c, w, pid, Some(body), brain);
            r.out == Ok && MeetingUnderway(r.w) && r.w.state.reporter == Some(pid) &&
            Gathered(w.players, r.w.players, c.meetingRoom)
  {
    var w1 := Reporting(w, pid, Some(body));
    assert forall id :: id in w.players ==> w1.players[id].IsAlive() == w.players[id].IsAlive();
    MeetingFrom(c, w, w1, pid, false, Some(body), brain);
  }

  /** A meeting started from a state that differs only in records other than life. */
  lemma MeetingFrom(c: Config, w: World, w1: World, pid: PlayerId, emergency: bool, body: Option<PlayerId>,
                    brain: Brain)
    requires pid in w1.players && (!emergency ==> body.Some? && body.value in w1.players)
    requires w1.players.Keys == w.players.Keys
    requires forall id :: id in w.players ==> w1.players[id].IsAlive() == w.players[id].IsAlive()
    ensures var r := StartDiscussion(c, w1, pid, emergency, body, brain);
            r.out == Ok && MeetingUnderway(r.w) && r.w.state.reporter == Some(pid) &&
            Gathered(w.players, r.w.players, c.meetingRoom)
  {
    StartDiscussionSpec(c, w1, pid, emergency, body, brain);
    GatheredFrom(w.players, w1.players, StartDiscussion(c, w1, pid, emergency, body, brain).w.players, c.meetingRoom);
  }

  /** A report naming no known body raises after the meeting record was reset. */
  lemma DoReportRaises(c: Config, w: World, pid: PlayerId, body: Option<PlayerId>, brain: Brain)
    requires body.None? || body.value !in w.players
    ensures var r := DoReport(c, w, pid, body, brain);
            r.out == Fault && r.w.state.phase == Discussion
  {
  }

  /** Gathering judged against a state that differs only in records other than life. */
  lemma GatheredFrom(a: map<PlayerId, Player>, a1: map<PlayerId, Player>, b: map<PlayerId, Player>, room: RoomId)
    requires Gathered(a1, b, room) && a1.Keys == a.Keys
    requires forall id :: id in a ==> a1[id].IsAlive() == a[id].IsAlive()
    ensures Gathered(a, b, room)
  {
  }

  /**
   * `_do_emergency`: refused when the caller has no meeting left;
   * otherwise one is spent and the meeting starts. There is no phase or
   * room check.
   */
  function DoEmergency(c: Config, w: World, pid: PlayerId, brain: Brain): Step
    requires pid in w.players
  {
    var p := w.players[pid];
    if p.emergencyMeetingsLeft <= 0 then Step(w, Err("No emergency meetings left"))
    else
      StartDiscussion(c, w.(players := w.players[pid := Summoner(p)]), pid, true, None, brain)
  }

  /** The caller of an emergency meeting: one meeting fewer left, and the call noted. */
  function Summoner(p: Player): Player
  {
    p.(emergencyMeetingsLeft := p.emergencyMeetingsLeft - 1, lastAction := "Called emergency meeting")
  }

  /**
   * An emergency call is refused, changing nothing, exactly when the
   * caller's quota is used up.
   */
  lemma DoEmergencyRefused(c: Config, w: World, pid: PlayerId, brain: Brain)
    requires pid in w.players
    ensures var r := DoEmergency(c, w, pid, brain);
            (r.out.Err? <==> w.players[pid].emergencyMeetingsLeft <= 0) && (r.out.Err? ==> r.w == w)
  {
    if w.players[pid].emergencyMeetingsLeft > 0 {
      MeetingFrom(c, w, w.(players := w.players[pid := Summoner(w.players[pid])]), pid, true, None, brain);
    }
  }

  /**
   * An accepted emergency call spends exactly one meeting of the caller's
   * and leaves a meeting under way with the caller as reporter.
   */
  lemma DoEmergencyMeets(c: Config, w: World, pid: PlayerId, brain: Brain)
    requires pid in w.players && w.players[pid].emergencyMeetingsLeft > 0
    ensures var r := DoEmergency(c, w, pid, brain);
            r.out == Ok && MeetingUnderway(r.w) && r.w.state.reporter == Some(pid) &&
            pid in r.w.players && r.w.players[pid].emergencyMeetingsLeft == w.players[pid].emergencyMeetingsLeft - 1 &&
            Gathered(w.players, r.w.players, c.meetingRoom)
  {
    var w1 := w.(players := w.players[pid := Summoner(w.players[pid])]);
    MeetingFrom(c, w, w1, pid, true, None, brain);
    QuotaKept(c, w1, pid, brain);
  }

  /** A meeting leaves a player's emergency quota alone. */
  lemma QuotaKept(c: Config, w: World, pid: PlayerId, brain: Brain)
    requires pid in w.players
    ensures var r := StartDiscussion(c, w, pid, true, None, brain).w;
            pid in r.players && r.players[pid].emergencyMeetingsLeft == w.players[pid].emergencyMeetingsLeft
  {
    var r := StartDiscussion(c, w, pid, true, None, brain).w;
    StartDiscussionFates(c, w, pid, true, None, brain);
    assert r.players[pid] == w.players[pid].(location := r.players[pid].location, memories := r.players[pid].memories);
  }

  /** A report keeps the invariant and leaves free roam. */
  lemma DoReportOk(c: Config, w: World, pid: PlayerId, body: Option<PlayerId>, brain: Brain)
    requires ConfigOk(c) && WorldOk(c, w)
    ensures WorldOk(c, DoReport(c, w, pid, body, brain).w)
    ensures DoReport(c, w, pid, body, brain).w.state.phase != FreeRoam
  {
    var w1 := Reporting(w, pid, body);
    RecordsWorldOk(c, w, w1.players);
    StartDiscussionOk(c, w1, pid, false, body, brain);
    StartDiscussionFates(c, w1, pid, false, body, brain);
  }

  /** An emergency call keeps the invariant and the turn-loop measure. */
  lemma DoEmergencyOk(c: Config, w: World, pid: PlayerId, brain: Brain)
    requires ConfigOk(c) && WorldOk(c, w) && pid in w.players
    ensures WorldOk(c, DoEmergency(c, w, pid, brain).w)
    ensures Calm(w, DoEmergency(c, w, pid, brain).w)
  {
    var p := w.players[pid];
    if p.emergencyMeetingsLeft > 0 {
      var e := Summoner(p);
      assert TasksConsistent(e) by {
        assert forall t :: Progress(e, t) == Progress(p, t);
      }
      SetPlayerOk(c, w, pid, e);
      var w1 := w.(players := w.players[pid := e]);
      assert DoEmergency(c, w, pid, brain) == StartDiscussion(c, w1, pid, true, None, brain);
      StartDiscussionOk(c, w1, pid, true, None, brain);
      StartDiscussionFates(c, w1, pid, true, None, brain);
    }
  }

  // ---------------------------------------------------------------------
  // Talk
  // ---------------------------------------------------------------------

  /** The chat opened by the speaker, who has now acted and notes whom they talked with. */
  function Engage(w: World, speaker: PlayerId, target: PlayerId): (r: World)
    requires speaker in w.players && target in w.players
    ensures r == w.(state := r.state, players := r.players)
  {
    var w1 := StartChat(w, speaker, target);
    w1.(players := w1.players[speaker := w1.players[speaker].(hasActed := true,
                                                              lastAction := "Talked with " + w.players[target].name)])
  }

  /**
   * `_do_talk`: refused while a chat is open, for an unknown player, when
   * either side is dead, or across rooms. An automatic request involving
   * the human only notes that the speaker waits. Otherwise the chat opens
   * and the speaker has acted; an automatic chat between NPCs then runs to
   * its end, a chat with the human is left open for the human's replies.
   */
  function DoTalk(c: Config, w: World, speaker: PlayerId, target: Option<PlayerId>, auto: bool, brain: Brain): Step
  {
    if w.state.conversationActive then Step(w, Err("A conversation is already in progress"))
    else if speaker !in w.players || target.None? || target.value !in w.players then
      Step(w, Err("Player does not exist"))
    else if !w.players[speaker].IsAlive() || !w.players[target.value].IsAlive() then
      Step(w, Err("Target cannot be conversed with"))
    else if w.players[speaker].location != w.players[target.value].location then
      Step(w, Err("Must be in the same room to converse"))
    else if auto && (w.players[speaker].isHuman || w.players[target.value].isHuman) then
      Step(w.(players := w.players[speaker := w.players[speaker].(lastAction := "Waiting")]), Ok)
    else
      var w1 := Engage(w, speaker, target.value);
      if auto then Step(AutoChat(c, w1, speaker, target.value, 0, brain), Ok)
      else Step(w1, ChatStarted(target.value, w.players[target.value].name))
  }

  /** Both sides of a talk are known, alive and in the same room. */
  predicate CanTalk(w: World, speaker: PlayerId, target: Option<PlayerId>)
  {
    speaker in w.players && target.Some? && target.value in w.players &&
    w.players[speaker].IsAlive() && w.players[target.value].IsAlive() &&
    w.players[speaker].location == w.players[target.value].location
  }

  /**
   * A talk is refused, changing nothing, exactly while a chat is open or
   * when the two cannot talk; a request by the human opens the chat and
   * names the partner, with the gate closed, the pair as participants in
   * order and the speaker's room as the chat's room.
   */
  lemma DoTalkSpec(c: Config, w: World, speaker: PlayerId, target: Option<PlayerId>, brain: Brain)
    ensures var r := DoTalk(c, w, speaker, target, false, brain);
            (r.out.Err? <==> w.state.conversationActive || !CanTalk(w, speaker, target)) &&
            (r.out.Err? ==> r.w == w) &&
            (!r.out.Err? ==>
               r.out == ChatStarted(target.value, w.players[target.value].name) &&
               r.w.state.conversationActive &&
               r.w.state.conversationParticipants == [speaker, target.value] &&
               r.w.state.conversationMessages == [] &&
               r.w.state.conversationRoom == Some(w.players[speaker].location) &&
               r.w.players[speaker].hasActed &&
               r.w.players.Keys == w.players.Keys)
  {
  }

  /**
   * An automatic talk between two NPCs who can talk runs the whole chat:
   * the gate is open again afterwards, the speaker has acted, and nothing
   * else about the players but memories changed.
   */
  lemma DoTalkAuto(c: Config, w: World, speaker: PlayerId, target: PlayerId, brain: Brain)
    requires MemoriesBounded(w.players) && !w.state.conversationActive && CanTalk(w, speaker, Some(target))
    requires !w.players[speaker].isHuman && !w.players[target].isHuman
    ensures var r := DoTalk(c, w, speaker, Some(target), true, brain);
            r.out == Ok && !r.w.state.conversationActive && r.w.state.phase == w.state.phase &&
            r.w.players.Keys == w.players.Keys && r.w.players[speaker].hasActed &&
            (forall id :: id in w.players && id != speaker ==>
               r.w.players[id] == w.players[id].(memories := r.w.players[id].memories))
  {
    var w1 := Engage(w, speaker, target);
    assert MemoriesBounded(w1.players);
    AutoChatCloses(c, w1, speaker, target, 0, brain);
  }

  /** A talk keeps the invariant and the turn-loop measure. */
  lemma DoTalkOk(c: Config, w: World, speaker: PlayerId, target: Option<PlayerId>, auto: bool, brain: Brain)
    requires WorldOk(c, w)
    ensures WorldOk(c, DoTalk(c, w, speaker, target, auto, brain).w)
    ensures Calm(w, DoTalk(c, w, speaker, target, auto, brain).w)
  {
    if !w.state.conversationActive && CanTalk(w, speaker, target) {
      var p := w.players[speaker];
      if auto && (p.isHuman || w.players[target.value].isHuman) {
        var q := p.(lastAction := "Waiting");
        assert DoTalk(c, w, speaker, target, auto, brain).w == w.(players := w.players[speaker := q]);
        RecordsWorldOk(c, w, w.players[speaker := q]);
        ReplaceSettled(w.players, speaker, q);
      } else {
        TalkOk(c, w, speaker, target.value, auto, brain);
      }
    }
  }

  /** A talk that goes ahead, as a chat with the human or as an exchange between NPCs, keeps the invariant. */
  lemma TalkOk(c: Config, w: World, speaker: PlayerId, target: PlayerId, auto: bool, brain: Brain)
    requires WorldOk(c, w) && !w.state.conversationActive && CanTalk(w, speaker, Some(target))
    requires !(auto && (w.players[speaker].isHuman || w.players[target].isHuman))
    ensures WorldOk(c, DoTalk(c, w, speaker, Some(target), auto, brain).w)
    ensures Settled(w.players, DoTalk(c, w, speaker, Some(target), auto, brain).w.players)
  {
    var w1 := Engage(w, speaker, target);
    EngageOk(c, w, speaker, target);
    if auto {
      assert DoTalk(c, w, speaker, Some(target), auto, brain).w == AutoChat(c, w1, speaker, target, 0, brain);
      AutoChatOk(c, w1, speaker, target, brain);
      SettledTrans(w.players, w1.players, AutoChat(c, w1, speaker, target, 0, brain).players);
    } else {
      assert DoTalk(c, w, speaker, Some(target), auto, brain).w == w1;
    }
  }

  lemma EngageOk(c: Config, w: World, speaker: PlayerId, target: PlayerId)
    requires WorldOk(c, w) && speaker in w.players && target in w.players
    ensures WorldOk(c, Engage(w, speaker, target)) && Settled(w.players, Engage(w, speaker, target).players)
  {
    var w1 := Engage(w, speaker, target);
    RecordsWorldOk(c, w, w1.players);
    StateWorldOk(c, w.(players := w1.players), w1.state);
    ReplaceSettled(w.players, speaker, w1.players[speaker]);
  }

  /** The NPC-to-NPC exchange keeps the invariant and changes only memories. */
  lemma AutoChatOk(c: Config, w: World, speaker: PlayerId, partner: PlayerId, brain: Brain)
    requires WorldOk(c, w)
    ensures WorldOk(c, AutoChat(c, w, speaker, partner, 0, brain))
    ensures Settled(w.players, AutoChat(c, w, speaker, partner, 0, brain).players)
  {
    AutoChatCloses(c, w, speaker, partner, 0, brain);
    var r := AutoChat(c, w, speaker, partner, 0, brain);
    var wp := w.(players := r.players);
    MemoriesWorldOk(c, w, r.players);
    assert r.state.currentSpeakerIndex == w.state.currentSpeakerIndex;
    StateWorldOk(c, wp, r.state);
    OnlyMemoriesSettled(w.players, r.players);
  }

  // ---------------------------------------------------------------------
  // Frame helpers
  // ---------------------------------------------------------------------

  /** Replacing one record by one no more alive and no less acted is a settled step. */
  lemma ReplaceSettled(ps: map<PlayerId, Player>, id: PlayerId, q: Player)
    requires id in ps && (q.IsAlive() ==> ps[id].IsAlive()) && (ps[id].hasActed ==> q.hasActed)
    ensures Settled(ps, ps[id := q])
  {
  }

  lemma OnlyMemoriesSettled(a: map<PlayerId, Player>, b: map<PlayerId, Player>)
    requires OnlyMemories(a, b)
    ensures Settled(a, b)
  {
    forall id | id in b ensures b[id].identity == a[id].identity && b[id].hasActed == a[id].hasActed {
      assert b[id] == a[id].(memories := b[id].memories);
    }
  }
}
