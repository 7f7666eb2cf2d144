# LLM Detector game cores in Dafny

This project models the rules of the three games in the LLM Detector
repository and proves properties of them. In each game, characters
driven by a language model share a world with one human player.

- **The goose-duck game** (`goose_duck/backend/goose_duck_game.py` and
  `models/identity.py`) is a social-deduction game.
  - A roster of geese, ducks and neutral birds is enlisted and given
    shuffled roles. Its members move between rooms, do tasks and kill.
  - Players report bodies or call emergency meetings, discuss in a
    speaking order and vote players out.
  - The game ends when one side outnumbers or eliminates the other.
  - Outside meetings, the NPCs take their turns in a cyclic turn order
    until the human's turn comes.
  - Two players may hold a one-to-one chat. Both remember its summary.
- **The detective game** (`detective_game/backend/game_manager.py` with
  its `models/` and `systems/` packages and `ai/actor_brain.py`) is a
  murder mystery.
  - The clock runs through six periods a day.
  - A scripted timeline fires events under conditions on flags and
    earlier events.
  - Places open and close by rules, and their investigation points yield
    clues once.
  - Conversations are kept per participant.
  - Each player action is followed by one clock step, the timeline check
    and every character's turn. In that turn a murderer whose plan is due
    strikes, and everyone else acts on the model's decision.
- **The detective prototype** (`detective_game/backend/game_state.py`,
  `models.py`, `story_manager.py`, `persona.py`) is the earlier
  single-file design.
  - Three places and personas at their default places.
  - Player actions (move, talk, investigate, reflect), each counted as
    one turn.
  - One story beat.
  - The observation text a persona is given.

## How the model is built

- **Values and state.** Records the source creates and hands around are
  datatypes. Objects whose fields the source updates in place are
  classes:
  - the goose `Game`;
  - the detective `GameState`, `TimeSystem`, `EventSystem`,
    `SceneSystem`, `ClueSystem`, `ConversationSystem` and `GameManager`;
  - the prototype `GameStateManager` and `StoryManager`.
- **Method contracts.** Each method of a class is specified against a
  function of the old state, as in `ensures State() == PlayerMove(old(State()), dest)`.
  The properties the source promises are proved about those functions as
  lemmas.
- **Defects.** Each class method follows the source as written, defects
  included. Where a defect is listed under "## Findings", the corrected
  function stands beside the as-written one, with its intended property
  proved.
- **Loops.** A loop of the source is a method with a `while` loop. It is
  proved equal to a recursive function (for example `CountBallots`,
  `RunTurns`, `FindNextTurn`, `PlaceActors` and `SortStrings`).
- **Errors.** Python exceptions, and the error dictionaries the source
  returns, are results: `Option`, `Outcome.Err` or `Outcome.Fault`. They
  are not preconditions.
- **Python's numbers and strings.** Python's negative slices, `strip`,
  `str(n)` and `", ".join` are written out in `Common`.
- **Goose game state.** The goose game's state is the value `World`:
  players by id, the key order, `player_order`, the shared record, the
  event log and the turn cursor. Its invariant is `Ok`. Each action is a
  function from `World` to a new `World` with an answer.
- **Turn-loop termination.** The NPC turn loop terminates on the number of
  living players who still owe an action. No action puts anyone back on
  that set.

## Model

| member | source | states |
|---|---|---|
| GooseIdentity.FromType | goose_duck/backend/models/identity.py:17-111 | Only the sheriff, the vigilante and the assassin can kill. Only the vigilante has a bounded number of kills, one. The assassin is the only evil role and the dodo the only neutral one. |
| GooseIdentity.UseKill | goose_duck/backend/models/identity.py:151-154 | Spends one use only when a positive count is left. An unlimited or exhausted count is kept, so a count never drops below zero. Nothing else changes. |
| GooseIdentity.ToView | goose_duck/backend/models/identity.py:156-165 | The role is exposed only when asked for. |
| GooseIdentity.NewIdentity | goose_duck/backend/models/identity.py:126-141 | A new identity is alive and unprotected. Without an explicit count it takes the role's number of kill uses. |
| GooseIdentity.KillUsesByRole | goose_duck/backend/models/identity.py:143-149 | A fresh identity can kill exactly when its role can. The vigilante loses the ability after one kill. The sheriff and the assassin keep it. |
| GooseIdentity.UseKillMonotone | goose_duck/backend/models/identity.py:143-154 | Spending kills never restores the ability to kill. An unlimited role stays able to kill while alive. |
| Events.Ev | goose_duck/backend/models/event.py:63-71 | An event with no actor and no metadata has the given type, text, time and location. |
| GooseRules.InitialState | goose_duck/backend/goose_duck_game.py:116-136 | The record starts in the lobby, at round 0, with no meeting, vote or chat. |
| GooseRules.Remember | goose_duck/backend/goose_duck_game.py:1023-1029 | Adding a memory keeps the 20 most recent. The result ends with the new text, is a suffix of the extended list and is never longer than 20. |
| GooseRules.RecordForRoom | goose_duck/backend/goose_duck_game.py:1023-1029 | Exactly the players in the room remember the text. Nothing else about anyone changes. |
| GooseRules.RecordForAll | goose_duck/backend/goose_duck_game.py:1031-1036 | Every player remembers the text. Nothing else changes. |
| GooseRules.RecordKeepsBound | goose_duck/backend/goose_duck_game.py:1023-1036 | Recording a memory never breaks the 20-entry bound. |
| GooseRules.CorpsesIn | goose_duck/backend/goose_duck_game.py:1044-1048 | Lists exactly the dead players lying in the room, in player order. |
| GooseRules.VisibleEvents | goose_duck/backend/goose_duck_game.py:1038-1056 | Among the last 50 events, those without a location or at the player's location, in log order. When the location is non-empty, one "Body found" event follows per corpse there. |
| GooseRules.Walk | goose_duck/backend/goose_duck_game.py:892-929 | The position a number of steps on along the cyclic turn order stays inside the order. |
| GooseRules.NextTurn | goose_duck/backend/goose_duck_game.py:892-929 | The cursor search reaches a player who is alive and has not acted. It never walks more than once round the order. |
| GooseRules.NextTurnSpec | goose_duck/backend/goose_duck_game.py:892-929 | The search stops at a pending player and passes only players who are not pending. It fails only when nobody from that step on is pending. |
| GooseRules.NextTurnFinds | goose_duck/backend/goose_duck_game.py:892-929 | A full walk visits every position, so the search fails only when nobody in the turn order is pending. |
| GooseRules.FindNextTurn | goose_duck/backend/goose_duck_game.py:892-929 | The loop that advances the cursor with `(cursor + 1) % len` computes `NextTurn`. |
| GooseRules.AliveInOrder | goose_duck/backend/goose_duck_game.py:603-653 | The living players, each once, in turn order. |
| GooseRules.SpeakerOrder | goose_duck/backend/goose_duck_game.py:603-653 | The speaking order is a rotation of the living players, with the same members in the same cyclic order. The reporter speaks first when alive. |
| GooseRules.Verdict | goose_duck/backend/goose_duck_game.py:753-774 | Evil wins once it is non-empty and at least as large as good. Good wins once evil is gone. The game goes on exactly when both are non-empty and good outnumbers evil. |
| GooseRules.OneDuckOneGooseIsEvilWin | goose_duck/backend/goose_duck_game.py:753-774 | One living assassin against one living goose is an evil win. |
| GooseRules.FirstBody | goose_duck/backend/goose_duck_game.py:392-400 | A body is found exactly when a dead player lies in the room, and no body comes before the one found. |
| GooseRules.FreeRoamActions | goose_duck/backend/goose_duck_game.py:354-412 | The free-roam menu in the source's order: moves; talks, each followed by a kill when the player can kill; the emergency button; a report; tasks. Every offered action is legal, and every living companion can be talked to. |
| GooseRules.VotingActions | goose_duck/backend/goose_duck_game.py:414-427 | The voting menu offers every other living player, then a skip. |
| GooseRules.AvailableActions | goose_duck/backend/goose_duck_game.py:345-429 | A missing or dead player is offered nothing. So is anyone outside the free-roam and voting phases. |
| GooseRules.PeopleHere | goose_duck/backend/goose_duck_game.py:794-826 | Everyone standing in the room, dead or alive, in order. |
| GooseRules.ParseDecision | goose_duck/backend/goose_duck_game.py:836-852 | A decision becomes "wait" when the reply is unparsable, when its type is not on the menu, when it moves to an unconnected room, or when it kills or votes for someone absent. Anything else is accepted as given. |
| GooseRules.WaitNeverOffered | goose_duck/backend/goose_duck_game.py:345-429 | "wait" is never on a menu, so it can come only from the parser's fallback. |
| GooseVotes.CountStep | goose_duck/backend/goose_duck_game.py:696-699 | Counting one more voter adds one to a target exactly when that ballot names it. |
| GooseVotes.CandidateHasVote | goose_duck/backend/goose_duck_game.py:696-699 | Every counted target has at least one vote. |
| GooseVotes.CountBallots | goose_duck/backend/goose_duck_game.py:696-699 | The counting loop yields, per named target, the number of ballots naming it. |
| GooseVotes.TallyVotes | goose_duck/backend/goose_duck_game.py:696-724 | No counts means nobody is ejected. More than one target at the highest count is a tie. A single top target is ejected. |
| GooseVotes.MaxCount | goose_duck/backend/goose_duck_game.py:711-712 | Python's `max` over the counts is reached by some target and bounds every count. |
| GooseVotes.AllSkipsEjectNobody | goose_duck/backend/goose_duck_game.py:696-724 | When every ballot is a skip, nobody is ejected. |
| GooseVotes.UnanimousEjects | goose_duck/backend/goose_duck_game.py:696-724 | A unanimous vote for a target ejects it. |
| GooseVotes.EjectedIffStrictLeader | goose_duck/backend/goose_duck_game.py:696-724 | A target is ejected if and only if it has more votes than every other named target. |
| GooseVotes.SharedTopIsTie | goose_duck/backend/goose_duck_game.py:696-724 | Two targets sharing the highest count make a tie. |
| GooseWorld.RoomMap | goose_duck/backend/goose_duck_game.py:177-192 | The rooms of the map configuration, keyed by their ids. |
| GooseWorld.AllTasks | goose_duck/backend/goose_duck_game.py:194-237 | Every task of every room, in room order: the list each player is assigned. |
| GooseWorld.HumanEnlisted | goose_duck/backend/goose_duck_game.py:194-237 | The human is among the recruits. |
| GooseWorld.FreshPlayer | goose_duck/backend/goose_duck_game.py:58-92 | A new player stands in the spawn room. All tasks are at progress 0. There is no identity and no memory. One emergency meeting is left, and the player has not acted. |
| GooseWorld.EnlistSpec | goose_duck/backend/goose_duck_game.py:194-237 | Enlisting keeps the old keys and adds the recruits' ids. A player off the roster is kept. Every recruit stands fresh in the spawn room. |
| GooseWorld.RemoveFirst | goose_duck/backend/goose_duck_game.py:230-237 | Python's `list.remove` drops the first occurrence. |
| GooseWorld.RemoveFirstMultiset | goose_duck/backend/goose_duck_game.py:230-237 | `list.remove` takes exactly one copy of the element out of the multiset. |
| GooseWorld.PromoteHuman | goose_duck/backend/goose_duck_game.py:230-237 | The human on the roster always moves first. Otherwise the shuffle is kept. |
| GooseWorld.PromoteHumanPermutes | goose_duck/backend/goose_duck_game.py:230-237 | Promoting the human only reorders: the turn order is a permutation of the shuffle. |
| GooseWorld.Repeat | goose_duck/backend/goose_duck_game.py:239-261 | `[role] * count` has `count` copies, and none for a non-positive count. |
| GooseWorld.ExpandRoles | goose_duck/backend/goose_duck_game.py:239-261 | Every role in the list is one of the configured role types. |
| GooseWorld.AssignRolesSpec | goose_duck/backend/goose_duck_game.py:239-261 | Handing out roles keeps the keys and changes nothing but identities. |
| GooseWorld.AssignRolesGives | goose_duck/backend/goose_duck_game.py:239-261 | With distinct ids, the player at position `j` holds the identity of the `j`-th role. |
| GooseWorld.AssignRolesKeeps | goose_duck/backend/goose_duck_game.py:239-261 | Players beyond the number of roles keep their record. |
| GooseWorld.Teleport | goose_duck/backend/goose_duck_game.py:603-653 | Every living player moves to the meeting room. The dead stay where they fell, and nothing else changes. |
| GooseWorld.Unacted | goose_duck/backend/goose_duck_game.py:937-939 | Nobody has acted afterwards, and nothing else changes. |
| GooseWorld.OtherIn | goose_duck/backend/goose_duck_game.py:1295-1299 | The first participant other than the speaker, or nothing when every participant is the speaker. |
| GooseWorld.RecordForEach | goose_duck/backend/goose_duck_game.py:1256-1278 | Each listed participant remembers the summary in turn; a repeated id remembers it twice. |
| GooseWorld.ChatSummary | goose_duck/backend/goose_duck_game.py:1280-1293 | A summary exists exactly when there are two participants known to the game. It names the round, both players and the room, and quotes the last six lines. |
| GooseWorld.ReplyText | goose_duck/backend/goose_duck_game.py:1184-1242 | Unparsed reply text is stripped, and an empty one becomes "...". An unparsed reply never ends the chat. |
| GooseWorld.AppendAllSpec | goose_duck/backend/goose_duck_game.py:194-237 | Filling the dictionary keeps the old keys first and in order and adds each new id. No key is listed twice. |
| GooseWorld.EnlistKeysMatch | goose_duck/backend/goose_duck_game.py:194-237 | After enlisting, the key order lists exactly the dictionary's keys. |
| GooseWorld.StartRosterRole | goose_duck/backend/goose_duck_game.py:263-281 | After `start_game` with distinct keys, the `j`-th player of the key order holds the `j`-th role and has not acted. |
| GooseWorld.StartRosterAllRoled | goose_duck/backend/goose_duck_game.py:263-281 | With enough roles, every player has an identity of a configured role type. |
| GooseWorld.EnlistOk | goose_duck/backend/goose_duck_game.py:194-237 | Enlisting keeps the invariant, and the key order stays distinct and in step with the keys. |
| GooseWorld.StartRosterOk | goose_duck/backend/goose_duck_game.py:263-281 | `start_game` keeps the players' invariant, and the key order lists exactly the new roster. |
| GooseState.MakeConfig | goose_duck/backend/goose_duck_game.py:142-192 | The configuration holds the rooms by id, each room's tasks, and the roster with the human first. |
| GooseState.EmptyWorld | goose_duck/backend/goose_duck_game.py:142-167 | A new or reset game has no players, the default record and an empty log. |
| GooseState.StartGame | goose_duck/backend/goose_duck_game.py:263-281 | The roster is enlisted and given the shuffled roles along the key order, and nobody has acted. The human moves first. Free roam of round 1 is announced by one event. |
| GooseState.StartGameOk | goose_duck/backend/goose_duck_game.py:263-281 | `start_game` keeps the invariant. When the turn shuffle permutes `player_order`, the human moves first. |
| GooseState.RunStartGame | goose_duck/backend/goose_duck_game.py:263-281 | The two loops, the flag reset and the start event compute `StartGame`. |
| GooseState.EnlistAll | goose_duck/backend/goose_duck_game.py:194-237 | The roster loop fills the players, the key order and `player_order` as `Enlist` says. |
| GooseState.AssignAll | goose_duck/backend/goose_duck_game.py:239-261 | The role loop computes `AssignRoles`. |
| GooseMeeting.CheckWin | goose_duck/backend/goose_duck_game.py:753-774 | Only living players with an identity count. A verdict ends the game with that winner. Otherwise nothing changes. |
| GooseMeeting.StartVoting | goose_duck/backend/goose_duck_game.py:973-985 | Voting starts with no ballots, announced by one event. |
| GooseMeeting.RotateStops | goose_duck/backend/goose_duck_game.py:1351-1396 | The rotation never moves back. It stops past the end of the order or at a living human's turn. |
| GooseMeeting.RotateSpeakers | goose_duck/backend/goose_duck_game.py:1351-1396 | One message is added per automatic speaker passed, in order. |
| GooseMeeting.DiscussSpec | goose_duck/backend/goose_duck_game.py:1351-1396 | Only the discussion fields and the log change. The index never moves back. The turn ends at a living human's turn or in voting. |
| GooseMeeting.AdvanceDiscussion | goose_duck/backend/goose_duck_game.py:1351-1396 | Outside the discussion phase nothing happens. |
| GooseMeeting.RunDiscussion | goose_duck/backend/goose_duck_game.py:1351-1396 | The rotation loop computes `Discuss`. |
| GooseMeeting.DiscussWaitsForHuman | goose_duck/backend/goose_duck_game.py:1351-1396 | Past the end of the order the rotation does nothing. At a living human's turn it waits. |
| GooseMeeting.OpenMeeting | goose_duck/backend/goose_duck_game.py:603-653 | The discussion starts with the reporter recorded, no messages, no ballots and the first speaker current. The speaking order is the living turn order rotated to the reporter. |
| GooseMeeting.StartDiscussionSpec | goose_duck/backend/goose_duck_game.py:603-653 | A meeting ends its first call in the discussion at a living human's turn, or in voting. The speaking order is the rotated living order. Nobody dies or revives. |
| GooseMeeting.ConveneSpec | goose_duck/backend/goose_duck_game.py:603-653 | The teleport and the rotation keep the reporter and the speaking order, leave the meeting under way and gather the living in the meeting room. |
| GooseMeeting.StartDiscussionOk | goose_duck/backend/goose_duck_game.py:603-653 | Starting a meeting keeps the invariant, whatever the outcome. |
| GooseMeeting.HumanSpeakerStuck | goose_duck/backend/goose_duck_game.py:954-971 | As written, the human who holds the floor keeps it after speaking. |
| GooseMeeting.HumanSpeakerStuckExample | goose_duck/backend/goose_duck_game.py:954-971 | As written, after the message of a lone living human in the speaking order the phase is still the discussion: the rotation never reaches later speakers or the vote, which only an explicit end of the discussion starts. |
| GooseMeeting.HumanSpeakerPasses | goose_duck/backend/goose_duck_game.py:954-971 | Corrected, the floor moves on. The message is kept, the automatic speakers after the human speak in order, and the index strictly grows. |
| GooseMeeting.AddDiscussionMessageOk | goose_duck/backend/goose_duck_game.py:954-971 | A discussion message, as written, keeps the invariant. |
| GooseMeeting.AddDiscussionMessagePassedOk | goose_duck/backend/goose_duck_game.py:954-971 | Corrected, with the floor passed on, a discussion message keeps the invariant too. |
| GooseMeeting.AfterVote | goose_duck/backend/goose_duck_game.py:744-751 | Without a dodo ejected, the victory check runs. Unless the game is over, free roam of the next round follows with nobody having acted. |
| GooseMeeting.VoteCast | goose_duck/backend/goose_duck_game.py:660-683 | The ballot is stored, announced, noted as the last action and remembered by everyone. |
| GooseMeeting.Tally | goose_duck/backend/goose_duck_game.py:685-691 | The ballots are kept. With fewer ballots than living players nothing happens. |
| GooseMeeting.DoVoteRefused | goose_duck/backend/goose_duck_game.py:655-691 | Outside voting, a vote is refused and nothing changes. |
| GooseMeeting.DoVoteStores | goose_duck/backend/goose_duck_game.py:655-691 | In voting, the ballot map is the old one with the voter's entry replaced. A second vote overwrites the first, and a skip is stored as no ballot. |
| GooseMeeting.DoVoteWaits | goose_duck/backend/goose_duck_game.py:655-691 | While fewer ballots than living players are in, the phase stays voting. |
| GooseMeeting.LivingUnchanged | goose_duck/backend/goose_duck_game.py:686-687 | Changes that keep every identity keep the number of living players. |
| GooseMeeting.NoEjectionKillsNobody | goose_duck/backend/goose_duck_game.py:693-751 | Without an ejection nobody dies. The game then ends, or free roam of the next round begins. |
| GooseMeeting.LeaderEjected | goose_duck/backend/goose_duck_game.py:693-751 | A unique leader with an identity is dead afterwards. |
| GooseMeeting.DodoEjectionWins | goose_duck/backend/goose_duck_game.py:737-742 | Ejecting a dodo ends the game with the neutral side winning, whatever the counts. The round does not advance. |
| GooseMeeting.OtherEjectionContinues | goose_duck/backend/goose_duck_game.py:722-751 | After any other ejection the victory check decides. Unless the game is over, the next round's free roam begins. |
| GooseMeeting.ResolveOk | goose_duck/backend/goose_duck_game.py:693-751 | Resolution keeps the invariant. |
| GooseMeeting.TallyOk | goose_duck/backend/goose_duck_game.py:685-691 | The closing test keeps the invariant. |
| GooseMeeting.DoVoteOk | goose_duck/backend/goose_duck_game.py:655-691 | Voting keeps the invariant. |
| GooseChat.StartChat | goose_duck/backend/goose_duck_game.py:1111-1118 | The chat gate is set. The two ids are the participants, there are no messages yet, and the room is the initiator's. |
| GooseChat.CloseChatSpec | goose_duck/backend/goose_duck_game.py:1256-1278 | Afterwards the gate is open and the chat fields are empty. A summary event is logged exactly when both participants are known. Only memories change. |
| GooseChat.NpcChatReplySpec | goose_duck/backend/goose_duck_game.py:1184-1242 | A reply that keeps the chat open appends one line by the NPC. One that closes it leaves the gate open. Nothing but the chat fields, the log and memories changes. |
| GooseChat.AutoChatCloses | goose_duck/backend/goose_duck_game.py:1244-1254 | The NPC-to-NPC exchange always ends with the gate open. The log grows by at most the summary. |
| GooseChat.AutoChatIdle | goose_duck/backend/goose_duck_game.py:1244-1254 | With the gate open the exchange does nothing. |
| GooseChat.RunAutoChat | goose_duck/backend/goose_duck_game.py:1244-1254 | The exchange loop computes `AutoChat`. |
| GooseChat.AddChatMessageSpec | goose_duck/backend/goose_duck_game.py:1154-1176 | A message is refused, changing nothing, exactly when no chat is open, the speaker is not a participant or the stripped text is empty. An accepted one is appended, stripped, before any reply. |
| GooseChat.ReplyKeepsPrefix | goose_duck/backend/goose_duck_game.py:1184-1242 | A reply that keeps the chat open only appends lines. |
| GooseActions.SameFatesVerdict | goose_duck/backend/goose_duck_game.py:753-774 | Identical identities give the same verdict. |
| GooseActions.DoMoveSpec | goose_duck/backend/goose_duck_game.py:473-507 | A move is refused, changing nothing, unless the target is connected. An accepted move puts the player there and logs leaving, scoped to the old room, then arriving. |
| GooseActions.DoMoveOk | goose_duck/backend/goose_duck_game.py:473-507 | A move keeps the invariant and the turn-loop measure. |
| GooseActions.DoTaskRefused | goose_duck/backend/goose_duck_game.py:1305-1321 | A task is refused exactly when it is not in the player's room or is already done. |
| GooseActions.DoTaskAdvances | goose_duck/backend/goose_duck_game.py:1305-1321 | An accepted task raises only that task's progress, by one. It is listed as completed exactly when it reaches the required steps, never twice. |
| GooseActions.TaskStepConsistent | goose_duck/backend/goose_duck_game.py:1305-1321 | One task step keeps the completion bookkeeping consistent. |
| GooseActions.DoTaskOk | goose_duck/backend/goose_duck_game.py:1305-1321 | A task keeps the invariant and the turn-loop measure. |
| GooseActions.Wound | goose_duck/backend/goose_duck_game.py:533-539 | The victim dies and the killer spends one use. Both last actions are noted. |
| GooseActions.WoundSpec | goose_duck/backend/goose_duck_game.py:533-539 | The victim is dead. A distinct killer spends one use and is otherwise unchanged. Roles are kept, nobody else changes and nobody revives. |
| GooseActions.Bury | goose_duck/backend/goose_duck_game.py:533-548 | A landed blow logs the crime at the scene, and everyone there remembers it. |
| GooseActions.Backfire | goose_duck/backend/goose_duck_game.py:550-562 | A sheriff who killed a good player dies as well. |
| GooseActions.Parry | goose_duck/backend/goose_duck_game.py:524-532 | Against a protected victim, the protection is used up and the attempt announced. Nobody dies. |
| GooseActions.StartDiscussionFates | goose_duck/backend/goose_duck_game.py:603-653 | A meeting moves players and gives them memories but changes nothing else about them, and leaves free roam. |
| GooseActions.DoKillRefused | goose_duck/backend/goose_duck_game.py:515-522 | A kill is refused, changing nothing, exactly in the three cases the source checks. |
| GooseActions.DoKillParried | goose_duck/backend/goose_duck_game.py:524-572 | A protected victim survives: the protection is used up, no life or use changes, and the win condition is still checked. |
| GooseActions.StrikeSpec | goose_duck/backend/goose_duck_game.py:533-569 | The victim dies and a distinct killer spends a use. A sheriff whose victim was good dies too. Roles are kept and nobody revives. |
| GooseActions.StrikeOk | goose_duck/backend/goose_duck_game.py:533-569 | A landed blow keeps the invariant. |
| GooseActions.AftermathSpec | goose_duck/backend/goose_duck_game.py:571-584 | After a landed blow the answer is success. A verdict ends the game with that winner. A Canadian goose's body is reported by the killer unless the game is over. |
| GooseActions.DoKillLands | goose_duck/backend/goose_duck_game.py:509-584 | An unparried kill succeeds. The victim dies and a distinct killer spends one use. The killer survives unless a sheriff killed a good player. Everyone else keeps their identity. |
| GooseActions.DoKillChecksWin | goose_duck/backend/goose_duck_game.py:509-584 | Every accepted kill checks the win condition, even a parried one. |
| GooseActions.DoKillCanadian | goose_duck/backend/goose_duck_game.py:564-584 | Killing a Canadian goose forces a meeting reported by the surviving killer unless the game ended. |
| GooseActions.AftermathOk | goose_duck/backend/goose_duck_game.py:571-584 | The end of a landed kill keeps the invariant. |
| GooseActions.DoKillOk | goose_duck/backend/goose_duck_game.py:509-584 | A kill attempt keeps the invariant and the turn-loop measure, whatever its outcome. |
| GooseActions.Reporting | goose_duck/backend/goose_duck_game.py:586-591 | Only the reporter's last action changes. Every other field of every player is kept. |
| GooseActions.DoReportMeets | goose_duck/backend/goose_duck_game.py:586-591 | A report by a known player of a known body always starts a meeting with the reporter recorded. |
| GooseActions.DoReportRaises | goose_duck/backend/goose_duck_game.py:586-591 | A report naming no known body raises after the meeting record was reset. |
| GooseActions.DoEmergencyRefused | goose_duck/backend/goose_duck_game.py:593-601 | An emergency call is refused, changing nothing, exactly when the caller's quota is used up. |
| GooseActions.DoEmergencyMeets | goose_duck/backend/goose_duck_game.py:593-601 | An accepted call spends exactly one meeting and starts one with the caller as reporter. |
| GooseActions.QuotaKept | goose_duck/backend/goose_duck_game.py:603-653 | A meeting leaves every emergency quota alone. |
| GooseActions.DoReportOk | goose_duck/backend/goose_duck_game.py:586-591 | A report keeps the invariant and leaves free roam. |
| GooseActions.DoEmergencyOk | goose_duck/backend/goose_duck_game.py:593-601 | An emergency call keeps the invariant and the turn-loop measure. |
| GooseActions.Engage | goose_duck/backend/goose_duck_game.py:1323-1349 | The speaker opens the chat, has acted and notes the partner. |
| GooseActions.DoTalkSpec | goose_duck/backend/goose_duck_game.py:1323-1349 | A talk is refused, changing nothing, exactly while a chat is open or when the two cannot talk. The human's request opens the chat with the pair as participants, in order. |
| GooseActions.DoTalkAuto | goose_duck/backend/goose_duck_game.py:1323-1349 | A talk between two NPCs runs the whole chat: the gate is open again and only memories change. |
| GooseActions.DoTalkOk | goose_duck/backend/goose_duck_game.py:1323-1349 | A talk keeps the invariant and the turn-loop measure. |
| GooseActions.AutoChatOk | goose_duck/backend/goose_duck_game.py:1244-1254 | The NPC-to-NPC exchange keeps the invariant and changes only memories. |
| GooseTurns.Decide | goose_duck/backend/goose_duck_game.py:780-791 | The NPC's reply is checked against its menu, the connections of its room and everyone standing there. |
| GooseTurns.DeadNpcWaits | goose_duck/backend/goose_duck_game.py:780-791 | A dead NPC is offered nothing, so it waits whatever the model answers. |
| GooseTurns.Waits | goose_duck/backend/goose_duck_game.py:872-890 | A waiting NPC notes that it waited. |
| GooseTurns.WaitsOk | goose_duck/backend/goose_duck_game.py:872-890 | Waiting keeps the invariant and changes no fate or acted flag. |
| GooseTurns.ActedOk | goose_duck/backend/goose_duck_game.py:892-929 | Marking a player as having acted keeps the invariant. |
| GooseTurns.ApplyNpcDecisionOk | goose_duck/backend/goose_duck_game.py:872-890 | An NPC turn keeps the invariant. While free roam goes on with no chat open, nobody is revived or un-acted. |
| GooseTurns.StartNewRoundOk | goose_duck/backend/goose_duck_game.py:931-935 | A new round keeps the invariant and makes every living player pending. |
| GooseTurns.TurnShrinks | goose_duck/backend/goose_duck_game.py:892-929 | One NPC turn keeps the invariant and strictly lowers the loop's measure. |
| GooseTurns.ProcessTurnsRests | goose_duck/backend/goose_duck_game.py:892-929 | Unless an action raised, the loop comes to rest, never at a dead player or a pending NPC. |
| GooseTurns.ProcessTurnsIdle | goose_duck/backend/goose_duck_game.py:892-929 | Outside free roam, or while a chat is open, the loop changes nothing. |
| GooseTurns.ProcessTurnsNewRound | goose_duck/backend/goose_duck_game.py:892-929 | With nobody pending, the round rises by one, the cursor returns to 0 and every acted flag is cleared. |
| GooseTurns.ProcessTurnsWaitsForHuman | goose_duck/backend/goose_duck_game.py:892-929 | When the next pending player is the human, the loop only moves the cursor there. |
| GooseTurns.RunTurns | goose_duck/backend/goose_duck_game.py:892-929 | The turn loop computes `ProcessTurns`. |
| GooseTurns.DispatchOk | goose_duck/backend/goose_duck_game.py:444-459 | Every action keeps the invariant. |
| GooseTurns.ExecuteActionGate | goose_duck/backend/goose_duck_game.py:431-442 | While a chat is open, every action but talk is refused and changes nothing. So is any action of an unknown player. |
| GooseTurns.ExecuteActionOk | goose_duck/backend/goose_duck_game.py:431-471 | An accepted action other than talk keeps the invariant and, unless something raised, leaves the loop at rest. |
| GooseTurns.EndChatOk | goose_duck/backend/goose_duck_game.py:1178-1182 | Ending a chat keeps the invariant and leaves the loop at rest. |
| GooseTurns.CloseChatOk | goose_duck/backend/goose_duck_game.py:1256-1278 | Closing a chat keeps the invariant. |
| GooseTurns.AddChatMessageOk | goose_duck/backend/goose_duck_game.py:1154-1176 | A chat message keeps the invariant. A reply that closed the chat is reported only for an accepted message. |
| GooseTurns.SendChatMessageOk | goose_duck/backend/goose_duck_game.py:1154-1176 | A message that makes the NPC close the chat leaves the gate open or the loop at rest. A refused one changes nothing. |
| GooseGame.Game.constructor | goose_duck/backend/goose_duck_game.py:142-167 | A new game has no players, the default record, an empty log and no turn order. |
| GooseGame.Game.Reset | goose_duck/backend/goose_duck_game.py:1013-1021 | After a reset there are no players, the default record, an empty log and no turn order. |
| GooseGame.Game.StartGame | goose_duck/backend/goose_duck_game.py:263-281 | Given a turn shuffle that permutes `player_order` and a role shuffle that permutes the default setup's role list, the fields become `StartGame` of the old ones, the invariant holds and the human moves first. |
| GooseGame.Game.ExecuteAction | goose_duck/backend/goose_duck_game.py:431-471 | The player's action runs, then the NPC turns unless it was refused, raised or opened a chat. The invariant is kept. |
| GooseGame.Game.AddDiscussionMessage | goose_duck/backend/goose_duck_game.py:954-971 | As written: the message is appended with the speaker index unchanged, and the rotation resumes. The fields become `AddDiscussionMessageAsWritten` of the old ones and the invariant holds. |
| GooseGame.Game.AdvanceDiscussion | goose_duck/backend/goose_duck_game.py:1351-1396 | The automatic speakers speak until the human's turn or the vote. |
| GooseGame.Game.StartVoting | goose_duck/backend/goose_duck_game.py:973-985 | Voting starts with no ballots, announced once. |
| GooseGame.Game.AddChatMessage | goose_duck/backend/goose_duck_game.py:1154-1176 | The message and the NPC's reply are added. When the reply closes the chat the turn loop resumes. |
| GooseGame.Game.EndChat | goose_duck/backend/goose_duck_game.py:1178-1182 | The open chat is closed and the turn loop resumes. |
| DetGameState.IndexOf | detective_game/backend/models/game_state.py:20-25 | The position of a period in the day's order of six. |
| DetGameState.PeriodOf | detective_game/backend/models/game_state.py:10-17 | The period with a given string value, if any. |
| DetGameState.ValueInjective | detective_game/backend/models/game_state.py:10-17 | Distinct periods have distinct values. |
| DetGameState.Next | detective_game/backend/models/game_state.py:27-36 | Each period is followed by the next one. The day ends only after the night, which is followed by dawn. |
| DetGameState.Advance | detective_game/backend/models/game_state.py:57-66 | The day number grows by one exactly when the night wraps to dawn, and that is what the advance reports. |
| DetGameState.AdvanceNSpec | detective_game/backend/models/game_state.py:57-66 | After `n` advances the period has moved `n` places round the day, and the day grows by the nights passed. |
| DetGameState.SixAdvances | detective_game/backend/models/game_state.py:57-66 | Six advances return to the same period on the next day. |
| DetGameState.DaysPass | detective_game/backend/models/game_state.py:57-66 | Every six advances add one day. |
| DetGameState.MatchesSpec | detective_game/backend/models/game_state.py:78-80 | A time matches exactly its own day and period. |
| DetGameState.NewRecord | detective_game/backend/models/game_state.py:116-131 | A fresh state has the given time and player, no flags and no triggered event. |
| DetGameState.GetFlag | detective_game/backend/models/game_state.py:137-139 | The stored value, or the default. |
| DetGameState.SetFlagSpec | detective_game/backend/models/game_state.py:133-143 | Setting a flag stores that value. `has_flag` then follows its truthiness, and everything else is unchanged. |
| DetGameState.MissingFlag | detective_game/backend/models/game_state.py:137-143 | A missing flag reads as the default and is not set. |
| DetGameState.MarkTriggeredSpec | detective_game/backend/models/game_state.py:145-151 | Marking an event makes it triggered and keeps everything else. |
| DetGameState.CollectionsAreSets | detective_game/backend/models/game_state.py:98-112 | Adding a clue or item makes `has_clue` or `has_item` hold. Adding twice is adding once, and nothing else is gained or lost. |
| DetGameState.GameState.constructor | detective_game/backend/models/game_state.py:116-131 | The object starts at the given time and player, with no flags and no triggered event. |
| DetGameState.GameState.SetFlag | detective_game/backend/models/game_state.py:133-135 | The fields become the record with that flag set. |
| DetGameState.GameState.MarkEventTriggered | detective_game/backend/models/game_state.py:145-147 | The fields become the record with that event marked. |
| DetGameState.GameState.AddClue | detective_game/backend/models/game_state.py:98-100 | The record changes only by the player gaining the clue. |
| DetGameState.GameState.AddItem | detective_game/backend/models/game_state.py:106-108 | The record changes only by the player gaining the item. |
| DetGameState.GameState.AdvanceTime | detective_game/backend/models/game_state.py:57-66 | The clock moves one period on and reports a new day. |
| DetTimeSystem.AdvanceEndsGame | detective_game/backend/systems/time_system.py:17-29 | After an advance the game is over exactly when it already was, or the last night of the last day has just ended. |
| DetTimeSystem.GameLength | detective_game/backend/systems/time_system.py:17-29 | From the dawn of day `d`, the game ends after exactly `6 * (maxDays - d) + 6` periods and not one period sooner. |
| DetTimeSystem.GameLengthFromMorning | detective_game/backend/systems/time_system.py:17-29 | From the morning of day `d`, where a default clock starts, the game ends after exactly `6 * (maxDays - d) + 5` periods and not one period sooner. |
| DetTimeSystem.TimeSystem.constructor | detective_game/backend/systems/time_system.py:14-15 | The system keeps the given number of days. |
| DetTimeSystem.TimeSystem.Default | detective_game/backend/systems/time_system.py:14-15 | By default the game lasts three days. |
| DetTimeSystem.TimeSystem.AdvanceTime | detective_game/backend/systems/time_system.py:17-25 | The clock moves one period on. The result is that advance's new-day flag, and nothing else changes. |
| DetActor.RoleOf | detective_game/backend/models/actor.py:10-16 | The role with that value, or nothing where Python raises. |
| DetActor.PlanFromDict | detective_game/backend/models/actor.py:88-101 | A plan entry defaults to day 1, the night and no action. |
| DetActor.Relationships | detective_game/backend/models/actor.py:78-86 | One relationship per target. Later entries for the same target win. |
| DetActor.RelationshipsSpec | detective_game/backend/models/actor.py:78-86 | Each relationship comes from the last entry for its target, "acquaintance" by default. |
| DetActor.Plans | detective_game/backend/models/actor.py:88-101 | One plan per entry, in order. |
| DetActor.ActorFromDict | detective_game/backend/models/actor.py:72-118 | Gives nothing for an unknown role, where Python raises. Otherwise every absent key takes its default, and the role defaults to "suspect". |
| DetActor.NewActorState | detective_game/backend/models/actor.py:132-151 | A new character is alive where it starts, knows nothing and remembers nothing. |
| DetActor.AddMemory | detective_game/backend/models/actor.py:153-165 | The entry goes last, and only the 50 most recent entries are kept. |
| DetActor.MemoryStaysBounded | detective_game/backend/models/actor.py:153-165 | A memory of at most 50 entries stays within 50 after one more. |
| DetActor.GetRecentMemory | detective_game/backend/models/actor.py:167-169 | `memory[-count:]`: the last `count` entries for a positive count, the whole memory for 0. |
| DetActor.UpdateImpression | detective_game/backend/models/actor.py:171-173 | Only the entry for that character is overwritten. |
| DetScene.RuleFromDict | detective_game/backend/models/scene.py:52-57 | A rule defaults to the empty condition, accessible and no message. |
| DetScene.Rules | detective_game/backend/models/scene.py:50-57 | One rule per entry, in file order. |
| DetScene.PointFromDict | detective_game/backend/models/scene.py:61-69 | A point defaults to empty strings and not discovered. |
| DetScene.Points | detective_game/backend/models/scene.py:59-69 | One point per entry, in file order. |
| DetScene.SceneFromDict | detective_game/backend/models/scene.py:46-79 | A place is accessible by default. Its rules and points keep file order, and its connections are kept as given. |
| DetScene.NewSceneState | detective_game/backend/models/scene.py:83-96 | A new place state has nobody there and nothing searched. |
| DetScene.OccupantsAreASet | detective_game/backend/models/scene.py:98-104 | Adding puts the actor there and keeps everyone else, and adding twice is adding once. Removing takes only that actor away, and removing someone absent changes nothing. |
| DetScene.MarkThenDiscovered | detective_game/backend/models/scene.py:106-112 | A marked point is discovered and the others are as before. Marking again changes nothing. |
| DetEventSystem.CheckConditionSpec | detective_game/backend/systems/event_system.py:78-105 | A condition holds exactly when its flag is set, its `after_event` has fired and its `before_event` has not, each only when present. |
| DetEventSystem.ClueFlagsSpec | detective_game/backend/systems/event_system.py:133-136 | The clue flags are raised, and nothing else changes. |
| DetEventSystem.ApplyEffectSpec | detective_game/backend/systems/event_system.py:114-136 | Every `set_flag` key gets its value unless the same effect raises that clue flag. Listed clues' flags are raised. Every other flag and field is kept. |
| DetEventSystem.ApplyStatusSpec | detective_game/backend/systems/event_system.py:121-127 | Exactly the existing characters marked "dead" die. Nothing else about anyone changes. |
| DetEventSystem.ApplyEffectsFrame | detective_game/backend/systems/event_system.py:107-136 | Effects change neither the clock, the player, the triggered set nor who exists. |
| DetEventSystem.Shown | detective_game/backend/systems/event_system.py:62-74 | A fired event with text is shown with its stripped text at the current time, with its id and victim. |
| DetEventSystem.FireOneSpec | detective_game/backend/systems/event_system.py:41-74 | An event fires exactly when it is untriggered in both places, due now and its condition holds. Firing marks it in both places and shows it only when it has text. |
| DetEventSystem.TriggerLength | detective_game/backend/systems/event_system.py:27-76 | The check yields one result per event examined. |
| DetEventSystem.TriggerSplit | detective_game/backend/systems/event_system.py:27-76 | Checking `a + b` checks `a`, then `b` from the state `a` left. |
| DetEventSystem.TriggerAt | detective_game/backend/systems/event_system.py:27-76 | The `j`-th event is decided in the state the earlier events left. |
| DetEventSystem.TriggerGrows | detective_game/backend/systems/event_system.py:27-76 | The check keeps the clock, only adds to the triggered set, and every fired event ends up in it. |
| DetEventSystem.TriggerOnceOnly | detective_game/backend/systems/event_system.py:41-59 | An event fires only if untriggered, due and its condition holds in the state the events before it left. It then sets its own mark. |
| DetEventSystem.EarlierFiringSeen | detective_game/backend/systems/event_system.py:41-59 | An `after_event` naming an event fired earlier in the same check holds. |
| DetEventSystem.TriggerShows | detective_game/backend/systems/event_system.py:27-76 | The check shows exactly the fired events with text, in order, at the current time. |
| DetEventSystem.Upcoming | detective_game/backend/systems/event_system.py:138-153 | The unflagged events within the look-ahead days, in timeline order. |
| DetEventSystem.UpcomingInOrder | detective_game/backend/systems/event_system.py:138-153 | The selection distributes over concatenation, so timeline order is kept. |
| DetEventSystem.EventSystem.constructor | detective_game/backend/systems/event_system.py:16-25 | The system holds the timeline as given. |
| DetEventSystem.EventSystem.CheckAndTriggerEvents | detective_game/backend/systems/event_system.py:27-76 | The events, the shared state and the characters change as `Trigger` says, and the shown events are returned. |
| DetEventSystem.EventSystem.FireEvent | detective_game/backend/systems/event_system.py:41-74 | One loop iteration examines the `i`-th event and fires it if due. |
| DetEventSystem.ApplyEffectsTo | detective_game/backend/systems/event_system.py:107-136 | The effects loop computes `ApplyEffects` on the shared state and the characters. |
| DetEventSystem.SetFlags | detective_game/backend/systems/event_system.py:116-119 | Each listed key is set to its value. |
| DetEventSystem.MarkDead | detective_game/backend/systems/event_system.py:122-127 | The status loop computes `ApplyStatus`. |
| DetEventSystem.RaiseClueFlags | detective_game/backend/systems/event_system.py:133-136 | The clue loop computes `ClueFlags`. |
| DetSceneSystem.MatchRuleSpec | detective_game/backend/systems/scene_system.py:68-99 | A condition is the conjunction of the keys present: the period, an event fired, an event not fired, an item held and a flag set. |
| DetSceneSystem.FirstMatch | detective_game/backend/systems/scene_system.py:42-66 | The first rule whose condition matches, if any. |
| DetSceneSystem.CheckAccessibility | detective_game/backend/systems/scene_system.py:42-66 | An unknown place, or one without state, is closed. Otherwise the first matching rule decides, and with none the default does. |
| DetSceneSystem.FirstRuleWins | detective_game/backend/systems/scene_system.py:42-66 | When rule `i` matches and no earlier one does, its verdict and message are the answer. |
| DetSceneSystem.OpenOf | detective_game/backend/systems/scene_system.py:101-108 | The open places among the ids, in order. |
| DetSceneSystem.GetAccessibleScenes | detective_game/backend/systems/scene_system.py:101-108 | Exactly the configured places that are open, in file order. |
| DetSceneSystem.OpenOfInOrder | detective_game/backend/systems/scene_system.py:101-108 | The selection distributes over concatenation. |
| DetSceneSystem.ConnectionsOf | detective_game/backend/systems/scene_system.py:110-134 | Every entry is a configured connection with its verdict, and every configured connection has an entry. |
| DetSceneSystem.GetConnectedScenes | detective_game/backend/systems/scene_system.py:110-134 | Nothing for an unknown place. Otherwise one entry per configured connection, with its verdict. |
| DetSceneSystem.InfoOf | detective_game/backend/systems/scene_system.py:136-177 | A point can be investigated exactly when it is unsearched and its requirement is met. It shows a clue exactly when it holds one and is unsearched. |
| DetSceneSystem.InfosOf | detective_game/backend/systems/scene_system.py:136-177 | One entry per point, in order. |
| DetSceneSystem.GetInvestigationPoints | detective_game/backend/systems/scene_system.py:136-177 | Nothing for an unknown place. Otherwise one entry per point, in file order. |
| DetSceneSystem.FindPoint | detective_game/backend/systems/scene_system.py:179-223 | The first point with that id. |
| DetSceneSystem.InvestigateSpec | detective_game/backend/systems/scene_system.py:179-223 | A search succeeds exactly when `CanSearch` holds. It then marks only that point and returns its clue. A failed search changes nothing. |
| DetSceneSystem.InvestigateAtMostOnce | detective_game/backend/systems/scene_system.py:179-223 | After a successful search the same search fails and changes nothing. |
| DetSceneSystem.ListingAgreesWithSearch | detective_game/backend/systems/scene_system.py:136-223 | An unshadowed point is listed as searchable exactly when searching it would succeed. |
| DetSceneSystem.MovedSpec | detective_game/backend/systems/scene_system.py:225-230 | The actor enters the known destination and leaves a different known source. Everything else stays. |
| DetSceneSystem.SceneSystem.constructor | detective_game/backend/systems/scene_system.py:16-32 | The system is built from the file's entries, one at a time. |
| DetSceneSystem.SceneSystem.InvestigatePoint | detective_game/backend/systems/scene_system.py:179-223 | The search with its scan computes `Investigate`. |
| DetSceneSystem.SceneSystem.MoveActorToScene | detective_game/backend/systems/scene_system.py:225-230 | The move computes `Moved`. |
| DetSceneSystem.BuildKeys | detective_game/backend/systems/scene_system.py:16-32 | The built system keeps file order, and every place has a configuration and a state. |
| DetSceneSystem.BuildSpec | detective_game/backend/systems/scene_system.py:16-32 | With distinct ids, every entry holds its parsed configuration and a fresh state with the default openness. |
| DetClue.ClueTypeOf | detective_game/backend/models/clue.py:10-15 | The clue type with that value, or nothing where Python raises. |
| DetClue.LastUnlock | detective_game/backend/models/clue.py:60-61 | The `unlocks` of the last connection that has one. |
| DetClue.LinksOfSpec | detective_game/backend/models/clue.py:51-61 | Gathers every `related_to` and every flattened `points_to`, in order. Keeps the last `unlocks`. |
| DetClue.ClueFromDict | detective_game/backend/models/clue.py:42-77 | Gives nothing for an unknown type. Otherwise the type defaults to physical, key evidence to false, and the links come from the loop. |
| DetClue.NewClueState | detective_game/backend/models/clue.py:80-87 | A new clue is not discoverable and was found by nobody, at no time. |
| DetClueSystem.IsDiscoverableSpec | detective_game/backend/systems/clue_system.py:39-58 | A clue is discoverable exactly when it is configured, its required event has fired or its availability flag is raised, and its required item is held or flagged. |
| DetClueSystem.GetClueInfo | detective_game/backend/systems/clue_system.py:106-123 | Nothing for an unknown clue. |
| DetClueSystem.DiscoverSpec | detective_game/backend/systems/clue_system.py:60-104 | A discovery fails, changing nothing, unless `CanDiscover` holds. A success records the finder and the time, and shows the clue. |
| DetClueSystem.DiscoverOnce | detective_game/backend/systems/clue_system.py:60-104 | After a successful discovery by a named finder, every later discovery of that clue fails. |
| DetClueSystem.DiscoverGivesPlayer | detective_game/backend/systems/clue_system.py:60-104 | Only the player's discoveries change the game state. The clue is then held, an item clue is in the inventory, and the unlock flag is raised. |
| DetClueSystem.Selected | detective_game/backend/systems/clue_system.py:125-173 | A filter selects only configured clues the player holds. The key-evidence filter selects only key evidence. |
| DetClueSystem.OpenClues | detective_game/backend/systems/clue_system.py:175-186 | Exactly the discoverable, undiscovered clues among the ids. |
| DetClueSystem.AllDiscoverableSpec | detective_game/backend/systems/clue_system.py:175-186 | The configured clues that can be found now, in file order. A discovered clue never appears, and a clue leaves the list once discovered. |
| DetClueSystem.ClueSystem.constructor | detective_game/backend/systems/clue_system.py:16-29 | Each entry gets its configuration and a fresh state. |
| DetClueSystem.ClueSystem.DiscoverClue | detective_game/backend/systems/clue_system.py:60-104 | The clue's state and, for the player, the game state change as `Discover` says. |
| DetClueSystem.ClueSystem.PlayerClues | detective_game/backend/systems/clue_system.py:125-173 | The info of each selected clue, once each. |
| DetClueSystem.BuildSpec | detective_game/backend/systems/clue_system.py:16-29 | The built system keeps file order. With distinct ids, every clue holds its parsed configuration and an undiscovered state. |
| DetConversation.Create | detective_game/backend/models/conversation.py:43-53 | The two participants are kept in order, with no messages and not ended. |
| DetConversation.AddMessageAppends | detective_game/backend/models/conversation.py:55-68 | Exactly one message is appended, at the end, and returned. Nothing else changes. |
| DetConversation.GetOtherParticipant | detective_game/backend/models/conversation.py:70-75 | The first participant who is not `current`, or nothing. |
| DetConversation.GetMessageByIdx | detective_game/backend/models/conversation.py:77-81 | The message at an in-range index, nothing otherwise. |
| DetConversation.LineShape | detective_game/backend/models/conversation.py:99-107 | Each line starts with the bracketed speaker and ends with the content. |
| DetConversation.Recent | detective_game/backend/models/conversation.py:97 | The last `maxMessages` messages, as the slice gives them. |
| DetConversation.Lines | detective_game/backend/models/conversation.py:98-107 | One line per message, in order. |
| DetConversation.FormatHistory | detective_game/backend/models/conversation.py:95-108 | The recent messages' lines, joined by newlines. |
| DetConversation.FormatShowsRecent | detective_game/backend/models/conversation.py:95-108 | Shows exactly the last `maxMessages` messages, one line each, in order. An empty conversation gives the empty text. |
| DetConversationSystem.StartSpec | detective_game/backend/systems/conversation_system.py:20-47 | A participant already in a running conversation gets it back, and nothing new is created. Otherwise a new conversation is stored and both are linked to it. |
| DetConversationSystem.StartThenRunning | detective_game/backend/systems/conversation_system.py:20-47 | After a start both participants are in the returned conversation. |
| DetConversationSystem.GetActiveConversation | detective_game/backend/systems/conversation_system.py:53-60 | The participant's stored, non-empty and unended conversation. |
| DetConversationSystem.AddMessageSpec | detective_game/backend/systems/conversation_system.py:62-83 | Only a running conversation takes a message, appended at its end. Everything else stays. |
| DetConversationSystem.Unlinked | detective_game/backend/systems/conversation_system.py:85-98 | The mappings left once the links to the conversation are deleted. |
| DetConversationSystem.EndSpec | detective_game/backend/systems/conversation_system.py:85-98 | No participant is left in the conversation, and other mappings are kept. It takes no more messages, and ending twice is ending once. |
| DetConversationSystem.Involving | detective_game/backend/systems/conversation_system.py:100-117 | The conversations involving the participant, in order. |
| DetConversationSystem.Insert | detective_game/backend/systems/conversation_system.py:112-115 | Inserting adds exactly that conversation and nothing else. |
| DetConversationSystem.SortNewestFirst | detective_game/backend/systems/conversation_system.py:112-115 | Sorting only reorders: the result is a permutation of the input. |
| DetConversationSystem.HistorySpec | detective_game/backend/systems/conversation_system.py:100-117 | Only conversations involving the participant, at most `limit`, newest first. With a large limit, each of them appears. |
| DetConversationSystem.ConversationSystem.constructor | detective_game/backend/systems/conversation_system.py:16-18 | A new system has no conversations. |
| DetConversationSystem.ConversationSystem.StartConversation | detective_game/backend/systems/conversation_system.py:20-47 | Starting a conversation computes `Start`. |
| DetConversationSystem.ConversationSystem.AddMessage | detective_game/backend/systems/conversation_system.py:62-83 | Adding a message computes `AddMessageTo`. |
| DetConversationSystem.ConversationSystem.EndConversation | detective_game/backend/systems/conversation_system.py:85-98 | Each participant's mapping is deleted while it still points here. |
| DetConversationSystem.ConversationSystem.GetConversationHistory | detective_game/backend/systems/conversation_system.py:100-117 | Filters, sorts newest first and cuts to `limit`. |
| DetActorBrain.ParseDecisionSpec | detective_game/backend/ai/actor_brain.py:204-246 | A move goes to an available place, and a talk goes to someone present. Anything else is a wait. |
| DetActorBrain.ParseIgnoresCase | detective_game/backend/ai/actor_brain.py:204-246 | The action keyword is matched case-insensitively. |
| DetActorBrain.DecideAction | detective_game/backend/ai/actor_brain.py:109-131 | A dead character waits whatever the reply. A living one acts on the parsed reply. |
| DetActorBrain.NoticedOf | detective_game/backend/ai/actor_brain.py:75-107 | The events a character at a place notices, in order. |
| DetActorBrain.MemoryLines | detective_game/backend/ai/actor_brain.py:75-107 | One line per memory, in order. |
| DetActorBrain.GatherObservations | detective_game/backend/ai/actor_brain.py:75-107 | The noticed events among the last ten, in order, and the lines of the five latest memories. |
| DetActorBrain.FilterNoticed | detective_game/backend/ai/actor_brain.py:75-107 | The event loop computes `NoticedOf`. |
| DetActorBrain.RecallLines | detective_game/backend/ai/actor_brain.py:75-107 | The memory loop computes `MemoryLines`. |
| DetActorBrain.ObservedEventsSpec | detective_game/backend/ai/actor_brain.py:75-107 | At most ten events are observed. Each is among the last ten and noticed from where the character stands, and every such event is there. |
| DetActorBrain.AccumulateImpression | detective_game/backend/ai/actor_brain.py:341-353 | A new impression is appended after "; " to an existing one, or becomes the impression. |
| DetActorBrain.ImpressionsAccumulate | detective_game/backend/ai/actor_brain.py:341-353 | The old impression is kept as a prefix and the summary ends the new one. Nothing else changes. |
| DetGameManager.PlayerMoveSpec | detective_game/backend/game_manager.py:237-262 | A move succeeds exactly when the place is open: the player then stands there. A refused move leaves the player where they were. Only the log changes otherwise. |
| DetGameManager.PlayerStartTalkSpec | detective_game/backend/game_manager.py:264-296 | Nothing changes for an unknown character. Only a system event is logged for one elsewhere. A character here is talked to, in a running conversation. |
| DetGameManager.PlayerInvestigateKeepsClues | detective_game/backend/game_manager.py:298-326 | Corrected: a point newly marked as searched yields its configured clue. A withheld search changes only the log. |
| DetGameManager.ClueLostAsWritten | detective_game/backend/game_manager.py:298-326 | As written, searching before the clue is discoverable marks the point and loses the clue for good. |
| DetGameManager.SpecialActionSpec | detective_game/backend/game_manager.py:476-510 | The first striking plan entry decides. With none, nothing changes. |
| DetGameManager.StrikeSpec | detective_game/backend/game_manager.py:476-510 | A strike kills exactly its living victim and raises the victim's and clue's flags. Nothing else changes. |
| DetGameManager.NpcActSpec | detective_game/backend/game_manager.py:512-586 | Only the actor, the occupants and the log change. A character changes place only on a move, to its target. |
| DetGameManager.NpcTurnSpec | detective_game/backend/game_manager.py:512-586 | An ordinary turn goes only to a reachable place, and every other character is untouched. |
| DetGameManager.CharacterTurnSpec | detective_game/backend/game_manager.py:456-474 | The dead are skipped. A strike kills only the living, and an ordinary turn changes only the actor. |
| DetGameManager.NpcTurnsSpec | detective_game/backend/game_manager.py:456-474 | Over all turns the dead stay as they were and nobody appears or disappears. The clock and the player do not change, and the turn's events only grow. |
| DetGameManager.PlayerInvestigateKeepsTime | detective_game/backend/game_manager.py:298-326 | A search, as written and as corrected, moves neither the clock nor the characters: the time, the characters' states and their order are all kept. |
| DetGameManager.DispatchKeepsTime | detective_game/backend/game_manager.py:205-235 | No player action moves the clock. |
| DetGameManager.ExecuteSpec | detective_game/backend/game_manager.py:205-235 | `view_clues` only clears the turn's events. Every other action advances the clock by exactly one period. After waiting, the player's event comes first in the turn's events. |
| DetGameManager.MoveActions | detective_game/backend/game_manager.py:157-164 | One move offer per open connection, in order. |
| DetGameManager.TalkActions | detective_game/backend/game_manager.py:134-146 | One talk offer per living character here, in dictionary order. |
| DetGameManager.InvestigateActions | detective_game/backend/game_manager.py:174-182 | One investigation offer per point that can be investigated. |
| DetGameManager.OffersGrouped | detective_game/backend/game_manager.py:152-199 | Offers come grouped. Waiting is offered always, last and once. |
| DetGameManager.OffersSpec | detective_game/backend/game_manager.py:152-199 | A move for exactly the open connected places, a talk for exactly the living characters here and an investigation for exactly the searchable points. |
| DetGameManager.AvailableActionsSpec | detective_game/backend/game_manager.py:152-199 | The listed actions, group by group, are exactly those the state allows. |
| DetGameManager.CollectMoves | detective_game/backend/game_manager.py:157-164 | The loop computes `MoveActions`. |
| DetGameManager.CollectTalks | detective_game/backend/game_manager.py:134-146 | The loop computes `TalkActions`. |
| DetGameManager.CollectInvestigations | detective_game/backend/game_manager.py:174-182 | The loop computes `InvestigateActions`. |
| DetGameManager.Place | detective_game/backend/game_manager.py:72-85 | One character gets its configuration and a fresh state at its morning place, and joins the order once. |
| DetGameManager.InitActorsKeys | detective_game/backend/game_manager.py:70-85 | Every configured character has a state, and the order lists each once. |
| DetGameManager.InitActorsConfiguresAll | detective_game/backend/game_manager.py:70-85 | Every entry's id is configured. |
| DetGameManager.InitActorsConfiguresOnly | detective_game/backend/game_manager.py:70-85 | Every configured character comes from an entry. |
| DetGameManager.InitActorsStates | detective_game/backend/game_manager.py:70-85 | Every state is fresh and alive at its character's starting place. |
| DetGameManager.PlaceActors | detective_game/backend/game_manager.py:70-85 | The loop computes `InitActors`, placing each character. |
| DetGameManager.GameManager.constructor | detective_game/backend/game_manager.py:29-68 | Starts with the given time, player, timeline, places and clues, no conversation, and the characters as set up. |
| DetGameManager.GameManager.MovePlayer | detective_game/backend/game_manager.py:237-262 | The world becomes `PlayerMove` of the old one. |
| DetGameManager.GameManager.StartTalk | detective_game/backend/game_manager.py:264-296 | The world becomes `PlayerStartTalk` of the old one. |
| DetGameManager.GameManager.Search | detective_game/backend/game_manager.py:298-326 | As written: the world becomes `PlayerInvestigateAsWritten` of the old one, so the point is marked searched even while its clue is withheld. |
| DetGameManager.GameManager.WaitHere | detective_game/backend/game_manager.py:328-336 | Logs one player event where the player stands. |
| DetGameManager.GameManager.AdvanceTime | detective_game/backend/game_manager.py:444-454 | The world becomes `AdvanceClock` of the old one: one period on, with an announcement logged exactly on a new day. |
| DetGameManager.GameManager.CheckEvents | detective_game/backend/game_manager.py:226-230 | The timeline check's events join the turn's. |
| DetGameManager.GameManager.CheckSpecialAction | detective_game/backend/game_manager.py:476-510 | Returns `SpecialAction`'s event and leaves its world. |
| DetGameManager.GameManager.ExecuteSingleNpcTurn | detective_game/backend/game_manager.py:512-586 | The world becomes `NpcTurn` of the old one. |
| DetGameManager.GameManager.TakeTurn | detective_game/backend/game_manager.py:456-474 | The world becomes `CharacterTurn` of the old one. |
| DetGameManager.GameManager.ExecuteNpcTurns | detective_game/backend/game_manager.py:456-474 | Every character takes its turn in dictionary order. |
| DetGameManager.GameManager.ExecutePlayerAction | detective_game/backend/game_manager.py:205-235 | The world becomes `Execute` of the old one, whose search is the one as written. |
| DetGameManager.GameManager.GetAvailableActions | detective_game/backend/game_manager.py:152-199 | Returns `AvailableActions` of the state and changes nothing. |
| ProtoModels.ParseAction | detective_game/backend/models.py:10-17 | The member with that value. Nothing exactly where no member has it, where Python raises. |
| ProtoModels.NewEvent | detective_game/backend/models.py:31-36 | A new event has no actor, no location and no metadata. |
| ProtoModels.DefaultGameState | detective_game/backend/models.py:72-79 | Turn 0, "Day 1 - Morning", in "Town Square", and nothing else yet. |
| ProtoModels.LocationSnapshotSpec | detective_game/backend/models.py:81-90 | One entry per location. Each shows the description and the tags and occupants once each, in ascending order. |
| ProtoGameState.Initial | detective_game/backend/game_state.py:30-48 | Exactly the three places, and the player stands in one of them. |
| ProtoGameState.InitPersonas | detective_game/backend/game_state.py:50-58 | Set-up keeps the place keys and every field but the personas and the places. |
| ProtoGameState.InitPersonasConfigured | detective_game/backend/game_state.py:50-58 | Every configured name is a persona, and every persona comes from a configuration. |
| ProtoGameState.InitPersonasSeated | detective_game/backend/game_state.py:50-58 | Every persona is among its place's occupants. |
| ProtoGameState.ClueIdSpec | detective_game/backend/game_state.py:140-155 | The clue id is the place lower-cased with spaces as underscores, then `_clue_`, then the turn. |
| ProtoGameState.ApplySpec | detective_game/backend/game_state.py:93-108 | An accepted action logs exactly one event and is one turn. Personas and places never change. The player moves only to a known place, and the clue keys change only by investigating. |
| ProtoGameState.MoveToSpec | detective_game/backend/game_state.py:109-121 | A move to a known place puts the player there. Otherwise only a system event is logged. |
| ProtoGameState.TalkToSpec | detective_game/backend/game_state.py:123-138 | Talking changes no state. The greeting is logged exactly when the persona is here, and a system message otherwise. |
| ProtoGameState.InvestigateHereSpec | detective_game/backend/game_state.py:140-155 | The clue is stored under this place's and turn's id, every other clue is kept, and the event carries the id. |
| ProtoGameState.TalkOptions | detective_game/backend/game_state.py:78-81 | One talk offer per name, in order. |
| ProtoGameState.OffersSpec | detective_game/backend/game_state.py:69-91 | After the moves come one talk per name, then investigating and reflecting. |
| ProtoGameState.TalkTitleInjective | detective_game/backend/game_state.py:78-81 | Two talk titles are equal only for the same name. |
| ProtoGameState.MoveOptionsSpec | detective_game/backend/game_state.py:73-77 | Moves go to exactly the places other than the current one. |
| ProtoGameState.OptionsSpec | detective_game/backend/game_state.py:69-91 | A move to every other place and no other. A talk with every occupant here and no one else, in ascending name order. Then investigate and reflect. |
| ProtoGameState.GameStateManager.constructor | detective_game/backend/game_state.py:23-58 | Three places, then the personas at their default places. |
| ProtoGameState.GameStateManager.LogEvent | detective_game/backend/game_state.py:61-62 | The event is appended to the log. |
| ProtoGameState.GameStateManager.ConsumeEvents | detective_game/backend/game_state.py:64-67 | Returns every logged event in order and leaves the log empty. |
| ProtoGameState.GameStateManager.AvailableActions | detective_game/backend/game_state.py:69-91 | Returns `Options` of the state. |
| ProtoGameState.GameStateManager.MovePlayer | detective_game/backend/game_state.py:109-121 | The session becomes `MoveTo` of the old one. |
| ProtoGameState.GameStateManager.TalkToPersona | detective_game/backend/game_state.py:123-138 | The session becomes `TalkTo` of the old one. |
| ProtoGameState.GameStateManager.InvestigateLocation | detective_game/backend/game_state.py:140-155 | The session becomes `InvestigateHere` of the old one. |
| ProtoGameState.GameStateManager.ReflectOnClues | detective_game/backend/game_state.py:157-167 | The session becomes `ReflectOn` of the old one: the sorted clue summary, or the placeholder, is logged. |
| ProtoGameState.GameStateManager.ApplyPlayerAction | detective_game/backend/game_state.py:93-108 | Refused, changing nothing, where Python raises on a missing or unknown type. Otherwise the session becomes `Apply` of the old one. |
| ProtoStory.BeatSpec | detective_game/backend/story_manager.py:16-26 | Returns nothing before turn 1 or once the beat is out. Otherwise exactly one story event, and the beat is marked. |
| ProtoStory.StoryOnce | detective_game/backend/story_manager.py:16-26 | Over any run of turns the beat is returned at most once: never if already released, and exactly once when some turn reaches 1. |
| ProtoStory.StoryManager.constructor | detective_game/backend/story_manager.py:13-14 | No beat has been released. |
| ProtoStory.StoryManager.Evaluate | detective_game/backend/story_manager.py:16-26 | The released set and the events are `Beat` of the old set and the turn. |
| ProtoPersona.Lines | detective_game/backend/persona.py:36-42 | One `- text` line per event, in order. |
| ProtoPersona.KeptEventsSpec | detective_game/backend/persona.py:37-41 | Keeps exactly the events not elsewhere and not the persona's own, never more. |
| ProtoPersona.KeptEventsAppend | detective_game/backend/persona.py:37-42 | Filtering distributes over concatenation, so input order is kept. |
| ProtoPersona.ComposeSpec | detective_game/backend/persona.py:44-47 | The text ends with the note. It starts with the first line, or is the placeholder. |
| ProtoPersona.ObservationsSpec | detective_game/backend/persona.py:35-47 | Ends with the note or its placeholder. With nothing kept it is the quiet line; otherwise it starts with the first kept event's line. |
| ProtoPersona.FormatObservations | detective_game/backend/persona.py:35-47 | The loop computes `Observations`. |
| Common.SortStrings | detective_game/backend/game_state.py:80 | `sorted` over a set of strings lists each once, ascending. |
| Common.Strip | goose_duck/backend/goose_duck_game.py:1154-1176 | Python's `strip`: the result is no longer than the input, has no whitespace at either end, and is empty exactly when the input is all whitespace. |
| Common.PyTail | goose_duck/backend/goose_duck_game.py:1023-1029 | Python's `s[-n:]`: a suffix of the list, of length `n` for a positive `n` within bounds, the whole list for `n == 0`, and all but the first `-n` elements for a negative `n`. |
| Common.SortedSpec | detective_game/backend/game_state.py:80 | `sorted` over a set of strings lists each element once, and nothing else, in ascending order. |
| GooseRules.SettledShrinksPending | goose_duck/backend/goose_duck_game.py:892-929 | A settled step never adds to the players who still owe an action. |
| GooseState.EmptyWorldOk | goose_duck/backend/goose_duck_game.py:142-167 | A new game satisfies the invariant. |
| GooseMeeting.CheckWinOk | goose_duck/backend/goose_duck_game.py:753-774 | The victory check keeps the invariant. |
| GooseMeeting.DiscussOk | goose_duck/backend/goose_duck_game.py:1351-1396 | The speaker rotation keeps the invariant. |
| GooseMeeting.TeleportOk | goose_duck/backend/goose_duck_game.py:645-649 | Gathering the living in a known room keeps every player's part of the invariant. |
| GooseMeeting.ConveneOk | goose_duck/backend/goose_duck_game.py:645-652 | The teleport and the rotation keep the invariant. |
| GooseMeeting.VoteCastOk | goose_duck/backend/goose_duck_game.py:660-683 | Casting a ballot keeps the invariant. |
| GooseMeeting.EjectOk | goose_duck/backend/goose_duck_game.py:723-742 | An ejection keeps the invariant. |
| GooseMeeting.AfterVoteOk | goose_duck/backend/goose_duck_game.py:744-751 | The end of the resolution keeps the invariant. |
| GooseActions.BurySpec | goose_duck/backend/goose_duck_game.py:533-548 | The victim is dead and a distinct killer has spent one use. Roles are kept, and every other player keeps their identity. |
| GooseActions.BackfireSpec | goose_duck/backend/goose_duck_game.py:550-562 | Only the killer can change. The killer dies exactly when a sheriff killed a good player. |
| GooseActions.MeetingMoves | goose_duck/backend/goose_duck_game.py:643-652 | The memories, the teleport and the rotation only move players. The meeting then goes on or votes. |
| GooseTurns.MarkActedOk | goose_duck/backend/goose_duck_game.py:468-470 | Setting the acted flag of the acting player keeps the invariant. |
| DetConversationSystem.InsertKeepsOrder | detective_game/backend/systems/conversation_system.py:112-115 | Inserting into a newest-first list keeps it newest first. |
| DetConversationSystem.SortedNewestFirst | detective_game/backend/systems/conversation_system.py:112-115 | The sorted history is newest first: by start day, then by the start period's name compared as a string, as Python compares the key tuple. |
| DetGameManager.GameManager.Act | detective_game/backend/game_manager.py:512-586 | The world becomes `NpcAct` of the old one. |
| DetGameManager.GameManager.Perform | detective_game/backend/game_manager.py:212-221 | The world becomes `Dispatch` of the old one, whose search is the one as written. An unknown kind does nothing. |

## Left out

- The language model. Its decisions, speeches, chat replies and dialogue are parameters: the goose `Brain` and the detective reply oracle. The prompts, the HTTP client and the JSON and regex extraction of replies are not part of this model.
- `async` and `await` are sequential. No two operations interleave.
- Randomness is a parameter: the role and turn shuffles, and the conversation id that Python takes from `uuid4`.
- Reading YAML and JSON files: entries arrive already parsed as records with absent keys as `None`. Non-string values of an untyped field are not modelled.
- Aliasing. Players, characters, places, clues and conversations are values in their owner's maps. An update replaces the entry, so no two owners share one object.
- `upper` and `lower` cover ASCII only; Unicode case mapping is not modelled. `strip` removes exactly the characters of Python's `str.isspace`: tab to carriage return, 0x1C to 0x1F, space, 0x85, 0xA0, 0x1680, 0x2000 to 0x200A, 0x2028, 0x2029, 0x202F, 0x205F and 0x3000.
- The relationship trust and other floating-point fields are not modelled.
- Serialisation is not modelled: `to_dict`, `get_game_snapshot`, `get_chat_state`, `get_discussion_state`, `get_map_info`, `get_game_state_snapshot`, `get_all_scenes_info`, `snapshot`.
- Debug output and the FastAPI apps are not modelled.
- Display strings of the detective clock are not modelled: `GameTime.__str__` and `TimeSystem.get_time_display`.
- The returned listing of `view_clues` (`_get_player_clues`) is not modelled. Only its effect on the turn's events is.
- The deprecated `_npc_actions`, `_build_observation`'s prompt text, `_extract_known_deaths` (parses free text) and `_get_role_win_text` are not modelled.
- In the detective game, `send_message_in_conversation`, `get_conversations_with`, `format_conversation_for_prompt` and `get_all_messages_involving` are not modelled. They only build prompts or answer queries.
- `PersonaActor.take_turn`, `_build_prompt` and `build_persona_actors` call the model or only build text.
- `FormatObservations` ignores the unused game-state argument of `_format_observations`.
- Iterating a Python set has an unspecified order. Listings over sets are proved for every order or taken in ascending order.
- GooseWorld.ChatSummary: the exact wording of the text is kept, but only its structure is proved.
- GooseGame.Game.constructor: requires that the spawn room and the meeting room are rooms of the map. The source reads both from its map file, with a default, and a missing room would only fail later at a room lookup; that failure is not modelled.
- DetGameManager.GameManager.constructor: requires that every clue and character entry parses. Python raises on a bad enum value during construction.
- DetClueSystem.ClueSystem.constructor: requires that every entry's type parses, for the same reason.
- DetClueSystem.DiscoverOnce: states once-only discovery for a non-empty finder. An empty finder is falsy in Python's later test and could discover again.
- DetConversationSystem.HistorySpec: states that the history is newest first and, under a large enough limit, a permutation of the involved conversations. It does not state the order of conversations with equal keys, which Python's stable sort keeps.
- ProtoGameState.GameStateManager.constructor: requires every persona's default place to be one of the three places. Python raises `KeyError` at the occupant update otherwise; that failure is not modelled.
- ProtoGameState.GameStateManager.ApplyPlayerAction: a missing or unknown action type is a rejected action that changes nothing, where Python raises.

## Findings

| source | as written | input that shows it | evidently intended | confidence | as-written member | corrected member |
|---|---|---|---|---|---|---|
| detective_game/backend/game_manager.py:298-326 | The point is marked searched before the clue discovery is tried. It stays marked when the clue is not discoverable yet (its `requires_event` has not fired), so the clue can never be found there. | A hall with a desk holding a knife that requires the murder event; the player searches the desk before the murder. | The point stays unsearched while its clue is withheld, so it can be searched once the clue becomes discoverable. | not executed | DetGameManager.ClueLostAsWritten | DetGameManager.PlayerInvestigateKeepsClues |
| goose_duck/backend/goose_duck_game.py:954-971 | `add_discussion_message` appends the human's message but does not advance `current_speaker_index`. `advance_discussion` then stops at the same human again, so the rotation never reaches later speakers or the vote. | A discussion whose speaking order is just the living human: after their message the phase is still DISCUSSION. | The speaker who holds the floor passes it on after speaking. | not executed | GooseMeeting.HumanSpeakerStuckExample | GooseMeeting.HumanSpeakerPasses |
