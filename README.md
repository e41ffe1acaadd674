# Avalon game engine and event log, in Dafny

This project models the engine of a seven-player Avalon simulator and proves properties of that
model.

**The engine.** `Game` deals four Loyal Servant and three Minion cards. The latest copy also records
the evil sub-roster and reveals it to every evil player. The engine then picks a first leader and
plays up to five quests. Each quest is a cycle of proposal, vote and quest:

- team sizes come from `[2, 3, 3, 4, 4]`;
- the number of failing contributions that fails a quest comes from `[1, 1, 1, 2, 1]`;
- a team is approved by a strict majority of the whole roster;
- the leader moves on after every proposal;
- five rejected teams in a row give the game to the Minions;
- three successes give it to the Loyal Servants, and three failures to the Minions.

**The event log.** It is an append-only list of events, each tagged PUBLIC, EVIL or ADMIN. It has
filtered views for loyal players, for evil players and for the operator.

The repository holds three copies of the engine: `avalon/game.py` (the current one, with its event
log `avalon/logger.py` and players `avalon/player/base.py`), `avalon.py` and `src/avalon.py` (with
`src/logger.py` and `src/player/base.py`).

## Structure

| file | module | models |
|---|---|---|
| `wrappers.dfy` | `Wrappers` | `Option` |
| `roles.dfy` | `Roles` | role names, the allegiance rule of every `assign_role`, the 4 + 3 deck, the evil roster |
| `game_rules.dfy` | `GameRules` | the quest tables, the vote and quest tallies, the reference semantics of the quest loop of `play_game`, and what it promises |
| `logger.dfy` | `Logger` | `avalon/logger.py` |
| `src_logger.dfy` | `SrcLogger` | `src/logger.py` |
| `player_names.dfy` | `PlayerNames` | the names `"Player {i+1}"` that `create_players` gives in `avalon.py` and `src/avalon.py` |
| `avalon_game.dfy` | `AvalonGame` | `avalon/game.py` and `avalon/player/base.py` |
| `avalon_script.dfy` | `AvalonScript` | `avalon.py` |
| `src_avalon.dfy` | `SrcAvalon` | `src/avalon.py` and `src/player/base.py` |

### How `play_game` is modelled

All three copies run the same quest loop, so `GameRules` defines it once, on values:

- `FromQuest` is the top of the outer loop.
- `FromProposal` is the top of the inner loop.
- `AfterQuest` is the win check after a quest.
- `Play` is the whole loop.

These three functions are mutually recursive. Their end state is a `Final` value, which holds:

- the outcome;
- the quest outcomes and the rejection counter that the game object ends with;
- the index of the current quest;
- the trace of every proposal: its quest, leader, team, earlier rejections, vote result and quest
  result;
- the sequence of milestones that `avalon/game.py` logs.

The players' choices come in as `Decisions`: the team a leader proposes, each roster member's vote,
and the contribution made at each slot of the team list (a player listed twice is asked once per
slot, as `conduct_quest` asks once per list entry). All three are indexed by the number of
proposals made before.

Each `Game` class is imperative: `PlayGame` has the source's nested loops over the fields that
`play_game` updates. Its postcondition ties the winner, `quests`, `rejected_teams`, `current_quest`
and `current_quest_fails_required` to `GameRules.Play`. In `AvalonGame` the same postcondition
covers every event in the log. Each loop body is one step method (`PlayQuest`, `NextProposal`),
proved against one unfolding of the reference functions.

The lemmas about `Play` are stated on `FinalOk`, the invariant that `PlayOk` proves of every run.
They cover:

- the winner;
- the rejection counter;
- the leader rotation;
- the recorded quest outcomes;
- the fall-through after five quests, which can never be reached;
- the two scenarios in which everybody cooperates, or everybody rejects.

The model follows the code in these points:

- The code checks no team for size, duplicates or unknown players, and raises no decision errors.
- The log has no private scope and no recipient.
- After the fifth quest, `play_game` would fall through and return `None`. The model keeps that
  branch (`OutcomeName(NoWinner) == None`) and proves it unreachable.
- The leader advances after every proposal except the fifth rejection in a row, which returns
  first.
- The roster size is `len(self.players)`, not a fixed seven. The seven-player facts are separate
  lemmas (`SevenVotersNeedFour`, `SevenPlayerDeal`, `DealtDeck`).

In two places the code as written fails when a game is constructed, and the model departs from
it to model the evidently intended construction:

- `avalon/game.py:28` calls `player_class(player_name, i, self)`, but every player class reaches
  `avalon/player/base.py:6`, `__init__(self, name, game)`, which takes no id: `Game()` of
  `avalon/game.py` raises TypeError on its first player, and `avalon/game.py:58` reads a
  `player.id` that is never set. `AvalonGame.BasePlayer.constructor` takes and stores the id, and
  `AvalonGame.Game.constructor` builds the roster with it.
- `src/player/base.py:11` reads `game.logger`, but the `Game` of `src/avalon.py` never sets one,
  so its `create_players` raises AttributeError. `SrcAvalon.Game.constructor` gives the game a
  fresh `SrcLogger.GameLogger` so that its players can take it. Nothing in `src/avalon.py` logs
  into it.

## Model

| member | source | states |
|---|---|---|
| `Roles.IsLoyalRole` | avalon/player/base.py:17 | a role is loyal exactly when it is "Merlin" or "Loyal Servant" |
| `Roles.MinionIsEvil` | avalon/player/base.py:15-17 | "Minion" is evil; "Merlin" and "Loyal Servant" are loyal |
| `Roles.Deck` | avalon/game.py:44 | defines the unshuffled deck of `assign_roles`: four "Loyal Servant" cards, then three "Minion" cards; DealtDeck states what any shuffle of it holds |
| `Roles.IsShuffledDeck` | avalon/game.py:45 | defines what `random.shuffle` may leave in `roles`: any permutation of the deck, as a multiset equality |
| `Roles.EvilRoster` | avalon/game.py:47-51 | defines `evil_players` after dealing `roles[i]` to player i: the players dealt an evil card, in roster order; EvilRosterSize, EvilRosterStep and EvilRosterMembers state its properties |
| `Roles.EvilRosterSize` | avalon/game.py:47-51 | each dealt card either is loyal or puts its player on the evil roster: roster size plus loyal count equals cards dealt |
| `Roles.EvilRosterStep` | avalon/game.py:48-51 | dealing card i to player i appends that player to the evil roster exactly when the card is evil |
| `Roles.EvilRosterMembers` | avalon/game.py:47-51 | with distinct players, a dealt player is on the evil roster iff their card is evil, and nobody else is on it |
| `Roles.DealtDeck` | avalon.py:103-104 | any shuffle of the deck has seven cards, four of them loyal (so three evil) |
| `GameRules.Count` | avalon/game.py:69 | Python's `list.count` on a list of booleans; its contract bounds the count by the length, and CountAppend (used by the lemmas below) makes it additive |
| `GameRules.FiveOutcomesDecide` | avalon/game.py:91-123 | five more quest outcomes always give one side at least three |
| `GameRules.Votes` | avalon/game.py:68 | defines the votes `vote_on_team` collects: one per roster position, in roster order; its contract states that there are exactly n of them |
| `GameRules.Approved` | avalon/game.py:69 | defines the vote result as `votes.count(True) > votes.count(False)`; ApprovedIffMajority and SevenVotersNeedFour state what it means |
| `GameRules.ApprovedIffMajority` | avalon/game.py:69-70 | approval (more True than False votes) is exactly a strict majority of all voters; a tie rejects |
| `GameRules.SevenVotersNeedFour` | avalon.py:117-119 | with seven voters a team is approved iff at least four vote yes |
| `GameRules.Contributions` | avalon/game.py:78 | defines the contributions `conduct_quest` collects: one per slot of the team list, in team order; its contract states that there are exactly as many as team slots |
| `GameRules.QuestSucceeds` | avalon/game.py:79-80 | defines the quest result as `n_fails < current_quest_fails_required`; FourthQuestNeedsTwoFails states what it means for the table's thresholds |
| `GameRules.FourthQuestNeedsTwoFails` | avalon/game.py:79-80 | on quest four, two failing contributions fail the quest and one does not; on every other quest one failure fails it |
| `GameRules.NextLeader` | avalon/game.py:116 | the next leader is a roster position |
| `GameRules.FromQuest` | avalon/game.py:91-96 | reference semantics of the top of the outer loop; its contract states only that the current quest ends in range, and the lemmas below state what it computes |
| `GameRules.MakeProposal` | avalon/game.py:99-108 | defines one proposal: the leader's team for the quest's size, the roster vote on it, and the quest result when approved; TraceProposals and ProposalsFollowRules state that every proposal of play_game is one |
| `GameRules.FromProposal` | avalon/game.py:98-116 | reference semantics of the inner loop; its contract states only that the current quest ends in range |
| `GameRules.AfterQuest` | avalon/game.py:117-123 | reference semantics of the win check; its contract states only that the current quest ends in range |
| `GameRules.Play` | avalon/game.py:91-123 | defines the quest loop of play_game: FromQuest from quest 0 with counter 0, the first leader, an empty trace and the outcomes the game already holds; PlayOk, PlayDecides, FinalWinner and the lemmas below state what it computes |
| `GameRules.PlayOk` | avalon/game.py:91-123 | every run of the quest loop ends in a state that satisfies FinalOk (a winner, a well-formed trace, outcomes recorded from approved teams, every earlier prefix undecided, and the reason for the outcome) |
| `GameRules.QuestStartStep` | avalon/game.py:92-96 | starting a quest moves to its first proposal with the counter at 0 |
| `GameRules.ProposalApprovedStep` | avalon/game.py:104-110 | an approved proposal records its outcome, moves the leader on and goes to the win check |
| `GameRules.ProposalRejectedStep` | avalon/game.py:111-116 | a rejection counts one more; the fifth ends the game for the Minions, otherwise the leader moves on and the same quest gets another proposal |
| `GameRules.QuestEndStep` | avalon/game.py:117-123 | three successes end the game for the Loyal Servants, otherwise three failures for the Minions, otherwise the next quest starts |
| `GameRules.LoopExit` | avalon/game.py:91 | after the fifth quest the loop falls through with no winner |
| `GameRules.OutcomeName` | avalon/game.py:115-123 | the returned value is None exactly for the fall-through |
| `GameRules.PlayDecides` | avalon/game.py:91-123 | play_game always returns "Loyal Servants" or "Minions" |
| `GameRules.FinalWinner` | avalon/game.py:112-123 | Loyal Servants win iff three quests succeeded; Minions win iff three failed or five teams were rejected; the counter ends at 0 or 5; at most five outcomes; every earlier prefix of the outcomes was undecided, so no quest is played past the deciding one |
| `GameRules.FreshGameWinner` | avalon/game.py:112-123 | the winner conditions of FinalWinner for a game started with no recorded outcome |
| `GameRules.TraceLeaders` | avalon/game.py:116 | in every trace the first leader starts, leaders are in range and each proposal's leader is the previous one plus one mod n |
| `GameRules.LeaderRotates` | avalon/game.py:88-116 | the proposals of play_game start with the first leader and rotate by one mod n |
| `GameRules.LeaderOfProposal` | avalon/game.py:88-116 | proposal number j is made by the player at position (first + j) mod n |
| `GameRules.TraceRejections` | avalon/game.py:109-112 | the counter is 0 at the first proposal, below five at every proposal, reset after an approval (which moves to the next quest) and one higher after a rejection |
| `GameRules.FinalRejections` | avalon/game.py:112-115 | the counter ends at 5 exactly when the last proposal was rejected, which was then the fifth in a row; otherwise it ends at 0 |
| `GameRules.RejectionCounter` | avalon/game.py:109-115 | the counter facts of TraceRejections and FinalRejections for the game play_game plays |
| `GameRules.TraceProposals` | avalon/game.py:100-108 | every proposal of a trace asks its leader for a team of the table's size, is approved iff the whole roster's votes approve it, and succeeds iff approved and its members' failures stay below the quest's threshold |
| `GameRules.ProposalsFollowRules` | avalon/game.py:100-108 | the same for the proposals of play_game |
| `GameRules.QuestIndexCountsApprovals` | avalon/game.py:91-110 | a proposal's quest index is the number of approvals before it |
| `GameRules.TraceRecordsApprovedTeams` | avalon/game.py:105-108 | the approved team of quest q recorded outcome number q |
| `GameRules.QuestsRecordApprovedTeams` | avalon/game.py:105-108 | quests grows by exactly the outcomes of the approved teams, in order, the team of quest q giving entry q |
| `GameRules.SuccessesDecideAtThree` | avalon/game.py:118-120 | all successes, decided at the last and not before: exactly three |
| `GameRules.CooperativeOutcome` | avalon/game.py:91-123 | when everybody votes yes and succeeds, the Loyal Servants win with exactly three successes after three proposals |
| `GameRules.EveryoneCooperates` | avalon/game.py:91-123 | the same for the game play_game plays |
| `GameRules.RejectingOutcome` | avalon/game.py:111-115 | when everybody votes no, five teams are rejected on the first quest and the Minions win with no outcome recorded |
| `GameRules.EveryoneRejects` | avalon/game.py:111-115 | the same for the game play_game plays |
| `Logger.Filter` | avalon/logger.py:37-38 | the filtered list is a subsequence of the log holding allowed events only |
| `Logger.FilterCounts` | avalon/logger.py:37-38 | the view holds each allowed event as often as the log and no other event |
| `Logger.FilterKeepsAllowed` | avalon/logger.py:37-38 | every allowed event of the log is in the view |
| `Logger.FilterAppend` | avalon/logger.py:37-38 | the view of a concatenation is the concatenation of the views |
| `Logger.ViewAfterLog` | avalon/logger.py:25-38 | logging one event extends a view by that event when it is admitted and leaves it unchanged otherwise; the old view is a prefix of the new |
| `Logger.ViewsMonotone` | avalon/logger.py:25-38 | a view taken before any appends is a prefix of the view taken after |
| `Logger.FilterNarrows` | avalon/logger.py:40-46 | filtering with fewer visibilities is filtering the wider view again, and gives a subsequence of it |
| `Logger.FilterKeepsAll` | avalon/logger.py:48-50 | a view that admits every event is the whole log |
| `Logger.FilterDropsAll` | avalon/logger.py:37-38 | a view that admits no event is empty |
| `Logger.EveryVisibility` | avalon/logger.py:6-10 | every event is PUBLIC, EVIL or ADMIN |
| `Logger.GameLogger.constructor` | avalon/logger.py:18-19 | the log starts empty |
| `Logger.GameLogger.LogPublic` | avalon/logger.py:25-27 | appends exactly one PUBLIC event with the message; earlier events unchanged |
| `Logger.GameLogger.LogEvil` | avalon/logger.py:29-31 | appends exactly one EVIL event with the message; earlier events unchanged |
| `Logger.GameLogger.LogAdmin` | avalon/logger.py:33-35 | appends exactly one ADMIN event with the message; earlier events unchanged |
| `Logger.GameLogger.GetEventsFiltered` | avalon/logger.py:37-38 | a subsequence of the log holding exactly the allowed events, each as often as in the log |
| `Logger.GameLogger.GetPublicEvents` | avalon/logger.py:40-42 | only PUBLIC events, and every PUBLIC event as often as it was logged, in log order |
| `Logger.GameLogger.GetEvilEvents` | avalon/logger.py:44-46 | every PUBLIC and EVIL event as often as it was logged, and never an ADMIN one, in log order |
| `Logger.GameLogger.GetAdminEvents` | avalon/logger.py:48-50 | the whole log |
| `Logger.GameLogger.ViewsNested` | avalon/logger.py:40-50 | public view within evil view within admin view, as subsequences |
| `SrcLogger.GameLogger.constructor` | src/logger.py:5-6 | the log starts empty |
| `SrcLogger.GameLogger.Log` | src/logger.py:12-14 | appends exactly the event at the end, length one more, earlier events unchanged |
| `SrcLogger.GameLogger.GetEvents` | src/logger.py:16-17 | every logged event in append order |
| `PlayerNames.NatToString` | avalon.py:99 | the decimal digits of a number, no leading zero, one digit exactly below ten |
| `PlayerNames.NatToStringValue` | avalon.py:99 | reading the digits back gives the number |
| `PlayerNames.NatToStringInjective` | avalon.py:99 | different numbers give different strings |
| `PlayerNames.PlayerName` | avalon.py:99 | "Player " followed by the digits of i + 1 |
| `PlayerNames.PlayerNamesDistinct` | avalon.py:98-99 | no two players get the same name |
| `AvalonGame.PublicViewOfGame` | avalon/game.py:43-63 | a loyal player's view of the events the engine logs is the public set-up events and the whole quest loop: no ADMIN role-assignment event and no EVIL roster event |
| `AvalonGame.EvilViewOfGame` | avalon/game.py:54-58 | an evil player's view of the events the engine logs adds the EVIL roster event in its place and still no ADMIN role-assignment event |
| `AvalonGame.AdminOnlyEventsOfGame` | avalon/game.py:48-52 | the ADMIN events among those the engine logs are exactly the role assignments in roster order |
| `AvalonGame.SevenPlayerDeal` | avalon/game.py:43-52 | with seven players a shuffled deck puts exactly three players on the evil roster and makes four loyal |
| `AvalonGame.BasePlayer.constructor` | avalon/player/base.py:6-10 | stores name and game, takes the game's logger, knows no evil player |
| `AvalonGame.BasePlayer.AssignRole` | avalon/player/base.py:15-17 | sets the role, and the allegiance as a function of the role alone |
| `AvalonGame.BasePlayer.LoyaltyTag` | avalon/player/base.py:12-13 | "Loyal" exactly when loyal, "Evil" exactly when not |
| `AvalonGame.Game.constructor` | avalon/game.py:13-22 | one fresh player per class, in order, a fresh empty logger with one join event per player, no quest outcome, counter 0, empty evil roster |
| `AvalonGame.Game.CreatePlayers` | avalon/game.py:24-30 | player i has class i, name i and id i, players are distinct, and each join is logged publicly in order |
| `AvalonGame.Game.PlayersByIds` | avalon/game.py:40-41 | the players with the given ids in the given order; None (KeyError) exactly when an id is not a roster key |
| `AvalonGame.Game.AssignRoles` | avalon/game.py:43-52 | player i gets card i and its allegiance; the evil roster is the evil-card players in roster order; one public and one admin event per card |
| `AvalonGame.Game.DealRoles` | avalon/game.py:47-52 | the deal loop from an empty evil roster: player k gets card k and its allegiance, the evil roster collects the evil-card players in roster order, one admin event per card |
| `AvalonGame.Game.DealRole` | avalon/game.py:48-52 | one pass of the deal loop keeps the roster and log invariants |
| `AvalonGame.Game.RevealEvilPlayers` | avalon/game.py:54-58 | every evil-roster player learns the roster, everybody else is unchanged; one public and one evil event |
| `AvalonGame.Game.AssignFirstLeader` | avalon/game.py:60-63 | the drawn roster position, logged publicly |
| `AvalonGame.Game.VoteOnTeam` | avalon/game.py:68-75 | the result is the approval of the whole roster's votes |
| `AvalonGame.Game.ConductQuest` | avalon/game.py:77-83 | the result is success iff team members' failures are fewer than the current threshold |
| `AvalonGame.Game.PlayGame` | avalon/game.py:85-123 | roles dealt, evil roster revealed, and winner, outcomes, counter, current quest and every event as GameRules.Play gives; the winner is "Loyal Servants" or "Minions" |
| `AvalonGame.Game.SetUp` | avalon/game.py:86-89 | roles dealt, evil players know the roster, first leader set, counter 0, set-up events logged |
| `AvalonGame.Game.QuestLoop` | avalon/game.py:91-123 | the quest loop ends as GameRules.Play from the first leader says, events included |
| `AvalonGame.Game.PlayQuest` | avalon/game.py:92-123 | one quest ends the game as GameRules.FromQuest says, or leads to the next quest's state |
| `AvalonGame.Game.ProposeTeams` | avalon/game.py:98-116 | the inner loop ends at the fifth rejection as GameRules says, or with one approved proposal recorded |
| `AvalonGame.Game.NextProposal` | avalon/game.py:99-116 | one proposal: approval records the outcome and resets the counter, rejection counts one more and the fifth ends the game |
| `AvalonGame.Game.ProposeTeam` | avalon/game.py:99-108 | proposal, vote and (when approved) quest, with their events |
| `AvalonScript.BasePlayer.constructor` | avalon.py:15-17 | stores name and game |
| `AvalonScript.BasePlayer.AssignRole` | avalon.py:22-24 | sets the role, and the allegiance as a function of the role alone |
| `AvalonScript.BasePlayer.LoyaltyTag` | avalon.py:19-20 | "Loyal" exactly when loyal, "Evil" exactly when not |
| `AvalonScript.Game.constructor` | avalon.py:88-94 | one fresh player per class, in order, named "Player {i+1}", names distinct, no quest outcome |
| `AvalonScript.Game.CreatePlayers` | avalon.py:96-100 | player i has class i and name "Player {i+1}", players are distinct |
| `AvalonScript.Game.AssignRoles` | avalon.py:102-107 | player i gets card i and its allegiance |
| `AvalonScript.Game.AssignFirstLeader` | avalon.py:109-112 | the drawn index is a roster position |
| `AvalonScript.Game.VoteOnTeam` | avalon.py:117-121 | the result is the approval of the whole roster's votes |
| `AvalonScript.Game.ConductQuest` | avalon.py:123-129 | success iff team members' failures are fewer than the current threshold |
| `AvalonScript.Game.PlayGame` | avalon.py:131-166 | roles dealt, and winner, outcomes, counter and current quest as GameRules.Play gives; the winner is "Loyal Servants" or "Minions" |
| `AvalonScript.Game.QuestLoop` | avalon.py:136-166 | the quest loop ends as GameRules.Play from the first leader says |
| `AvalonScript.Game.PlayQuest` | avalon.py:137-166 | one quest ends the game as GameRules.FromQuest says, or leads to the next quest's state |
| `AvalonScript.Game.ProposeTeams` | avalon.py:143-159 | the inner loop ends at the fifth rejection as GameRules says, or with one approved proposal recorded |
| `AvalonScript.Game.NextProposal` | avalon.py:144-159 | one proposal: approval records the outcome and resets the counter, rejection counts one more and the fifth ends the game |
| `SrcAvalon.BasePlayer.constructor` | src/player/base.py:8-12 | stores name and game, takes the game's logger, knows no evil player |
| `SrcAvalon.BasePlayer.AssignRole` | src/player/base.py:17-19 | sets the role, and the allegiance as a function of the role alone |
| `SrcAvalon.BasePlayer.LoyaltyTag` | src/player/base.py:14-15 | "Loyal" exactly when loyal, "Evil" exactly when not |
| `SrcAvalon.Game.constructor` | src/avalon.py:15-21 | one fresh player per class, in order, named "Player {i+1}", names distinct, an empty logger, no quest outcome |
| `SrcAvalon.Game.CreatePlayers` | src/avalon.py:23-27 | player i has class i and name "Player {i+1}", takes the game's logger, players are distinct |
| `SrcAvalon.Game.AssignRoles` | src/avalon.py:29-34 | player i gets card i and its allegiance |
| `SrcAvalon.Game.AssignFirstLeader` | src/avalon.py:36-39 | the drawn index is a roster position |
| `SrcAvalon.Game.VoteOnTeam` | src/avalon.py:44-48 | the result is the approval of the whole roster's votes |
| `SrcAvalon.Game.ConductQuest` | src/avalon.py:50-56 | success iff team members' failures are fewer than the current threshold |
| `SrcAvalon.Game.PlayGame` | src/avalon.py:58-93 | roles dealt, and winner, outcomes, counter and current quest as GameRules.Play gives; the winner is "Loyal Servants" or "Minions" |
| `SrcAvalon.Game.QuestLoop` | src/avalon.py:63-93 | the quest loop ends as GameRules.Play from the first leader says |
| `SrcAvalon.Game.PlayQuest` | src/avalon.py:64-93 | one quest ends the game as GameRules.FromQuest says, or leads to the next quest's state |
| `SrcAvalon.Game.ProposeTeams` | src/avalon.py:70-86 | the inner loop ends at the fifth rejection as GameRules says, or with one approved proposal recorded |
| `SrcAvalon.Game.NextProposal` | src/avalon.py:71-86 | one proposal: approval records the outcome and resets the counter, rejection counts one more and the fifth ends the game |

## Left out

- The text of log messages. Each event carries a short tag that names its log line, so only the
  order and visibility of events are modelled. The source stores the string value of `EventVisibility`
  in each event; the model uses the three constructors.
- Python's `logging` output (`logging.basicConfig`, `logging.info`). It is I/O. Every log line of
  `avalon.py` and `src/avalon.py` goes there. In `AvalonScript` and `SrcAvalon` the milestones are
  kept only as ghost state.
- Randomness:
  - `random.shuffle` is the `deck` parameter, and `Roles.IsShuffledDeck` says what a shuffle may give;
  - `random.randint` is the `first` parameter;
  - `fantasynames.human()` is the `names` parameter;
  - `select_quest_team` is never called.
- The player policies (`RandomPlayer`, `NaivePlayer`, `avalon/player/baseline.py`, the LLM players).
  Their choices are the `Decisions` parameter, so the events those players log themselves are not
  in the model. The message loop over `last_vote_explanation` in `vote_on_team`
  (avalon/game.py:72-74) is left out too.
- `format_player_list` and the rest of `__str__` beyond its loyalty tag: display only. `list_players`
  is the roster sequence.
- The allegiance carried in public message text. `__str__` (avalon/player/base.py:13) ends in
  "(Loyal)" or "(Evil)", and three public messages embed it: the first leader
  (avalon/game.py:62), each proposer (avalon/game.py:101) and every member of a proposed team
  (avalon/game.py:103). So the source's loyal view does reveal the allegiance of every player it
  names. `PublicViewOfGame` and `EvilViewOfGame` are about event visibility only, and the model's
  events carry no text.
- Team validation: the source performs none, and a team is a sequence of roster indices.
- `AvalonGame.Game.AssignRoles` (and `SetUp`, `PlayGame`): requires at least as many cards as players.
  The source raises IndexError beyond seven players; that error is not modelled.
- `AvalonScript.Game.AssignRoles` (and `PlayGame`): requires at least as many cards as players, as above.
- `SrcAvalon.Game.AssignRoles` (and `PlayGame`): requires at least as many cards as players, as above.
- `AvalonGame.Game.PlayGame`, `AvalonScript.Game.PlayGame`, `SrcAvalon.Game.PlayGame`: require the
  first leader to be a roster position, which is what `random.randint` draws. The ValueError of
  `randint` on an empty roster is not modelled.
- `GameRules.FreshGameWinner`: does not repeat the prefix clause of `FinalWinner`. That clause says
  that no quest is played past the deciding one, and `FinalWinner` proves it for every end state.
- The acceptance flag `is_team_accepted` of the inner loop. The model returns from the loop at the
  point where the source sets the flag.
- Attributes that the source creates lazily: `role` and `is_loyal` before `assign_role`, and, in
  `avalon.py` and `src/avalon.py`, `rejected_teams` before `play_game`, and, in all three copies
  (avalon/game.py:94 among them), `current_quest_fails_required` before `play_game`. In the model
  they start as `""`, `false` and `0`.
- `num_players = 7` is stored but the engine never reads it. The roster size is the length of the
  player list.
