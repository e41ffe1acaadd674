/** avalon.py: the single-file engine, with its own BasePlayer and no event log. Its play_game
    runs the same quest loop as avalon/game.py without the evil reveal; every log line goes to
    Python's logging module and is left out. The shuffled deck, the first leader and the players'
    decisions are parameters. */
module AvalonScript {
  import opened Wrappers
  import opened Roles
  import opened GameRules
  import opened PlayerNames

  class BasePlayer {
    /** The player's class name, printed by __str__. */
    const className: string
    const name: string
    const game: Game
    var role: string
    var isLoyal: bool

    /** Stores the name and the game. The role and the allegiance have no value in the source
        until assign_role; here they start as "" and false. */
    constructor (className: string, name: string, game: Game)
      ensures this.className == className && this.name == name && this.game == game
      ensures role == "" && !isLoyal
    {
      this.className := className;
      this.name := name;
      this.game := game;
      role := "";
      isLoyal := false;
    }

    /** assign_role: the allegiance is a function of the role name alone. */
    method AssignRole(role: string)
      modifies this`role, this`isLoyal
      ensures this.role == role && isLoyal == IsLoyalRole(role)
    {
      this.role := role;
      isLoyal := role in [Merlin, LoyalServant];
    }

    /** The allegiance tag of __str__. */
    function LoyaltyTag(): (tag: string)
      reads this
      ensures tag == "Loyal" <==> isLoyal
      ensures tag == "Evil" <==> !isLoyal
    {
      assert "Loyal"[0] != "Evil"[0];
      if isLoyal then "Loyal" else "Evil"
    }
  }

  class Game {
    const numPlayers: nat
    var players: seq<BasePlayer>
    var quests: seq<bool>
    var currentQuest: nat
    var rejectedTeams: nat
    var currentQuestFailsRequired: nat

    /** The roster: distinct players, each holding this game. */
    ghost predicate Valid()
      reads this`players
    {
      (forall i, j :: 0 <= i < j < |players| ==> players[i] != players[j]) &&
      (forall i :: 0 <= i < |players| ==> players[i].game == this)
    }

    /** __init__: one fresh player per class, in order, player i named "Player {i+1}". The
        rejection counter and the fail threshold are first set by play_game in the source; here
        they start as 0. */
    constructor (classNames: seq<string>)
      ensures Valid() && numPlayers == 7
      ensures |players| == |classNames|
      ensures forall i :: 0 <= i < |players| ==>
                fresh(players[i]) && players[i].className == classNames[i] &&
                players[i].name == PlayerName(i)
      ensures forall i, j :: 0 <= i < j < |players| ==> players[i].name != players[j].name
      ensures quests == [] && currentQuest == 0 && rejectedTeams == 0
    {
      numPlayers := 7;
      rejectedTeams := 0;
      currentQuestFailsRequired := 0;
      new;
      players := CreatePlayers(classNames);
      quests := [];
      currentQuest := 0;
      forall i, j | 0 <= i < j < |players| ensures players[i].name != players[j].name {
        PlayerNamesDistinct(i, j);
      }
    }

    /** create_players: player i has class i and the name "Player {i+1}"; no two are the same
        object. */
    method CreatePlayers(classNames: seq<string>) returns (ps: seq<BasePlayer>)
      ensures |ps| == |classNames|
      ensures forall i :: 0 <= i < |ps| ==>
                fresh(ps[i]) && ps[i].className == classNames[i] && ps[i].name == PlayerName(i) &&
                ps[i].game == this
      ensures forall i, j :: 0 <= i < j < |ps| ==> ps[i] != ps[j]
    {
      ps := [];
      var i := 0;
      while i < |classNames|
        invariant 0 <= i <= |classNames| && |ps| == i
        invariant forall k :: 0 <= k < i ==>
                    fresh(ps[k]) && ps[k].className == classNames[k] && ps[k].name == PlayerName(k) &&
                    ps[k].game == this
        invariant forall k, l :: 0 <= k < l < i ==> ps[k] != ps[l]
      {
        var player := new BasePlayer(classNames[i], PlayerName(i), this);
        ps := ps + [player];
        i := i + 1;
      }
    }

    /** assign_roles: player i gets role deck[i], in roster order. */
    method AssignRoles(deck: seq<string>)
      requires Valid() && |players| <= |deck|
      modifies players`role, players`isLoyal
      ensures forall i :: 0 <= i < |players| ==>
                players[i].role == deck[i] && players[i].isLoyal == IsLoyalRole(deck[i])
    {
      var i := 0;
      while i < |players|
        invariant 0 <= i <= |players|
        invariant forall k :: 0 <= k < i ==>
                    players[k].role == deck[k] && players[k].isLoyal == IsLoyalRole(deck[k])
      {
        players[i].AssignRole(deck[i]);
        i := i + 1;
      }
    }

    /** assign_first_leader: the drawn index, which must be a roster position. */
    function AssignFirstLeader(leader: nat): (leaderIndex: nat)
      requires leader < |players|
      reads this`players
      ensures leaderIndex < |players|
    {
      leader
    }

    /** vote_on_team: the whole roster votes on proposal k; the result is a strict majority of
        yes votes (see GameRules.ApprovedIffMajority). */
    method VoteOnTeam(d: Decisions, k: nat, team: seq<nat>) returns (result: bool)
      ensures result == Approved(Votes(d, |players|, k, team))
    {
      var votes := Votes(d, |players|, k, team);
      result := Count(votes, true) > Count(votes, false);
    }

    /** conduct_quest: only the team members contribute, and the quest succeeds when fewer of
        them fail it than the current quest requires. */
    method ConductQuest(d: Decisions, k: nat, team: seq<nat>) returns (result: bool)
      ensures result == QuestSucceeds(Contributions(d, k, team), currentQuestFailsRequired)
    {
      var votes := Contributions(d, k, team);
      var fails := Count(votes, false);
      result := fails < currentQuestFailsRequired;
    }

    /** play_game: deals the roles, picks the first leader and runs the quest loop, which ends as
        GameRules.Play says: the same winner, quest outcomes, rejection counter and current
        quest; the fall-through after the fifth quest is never reached. */
    method PlayGame(deck: seq<string>, first: nat, d: Decisions) returns (winner: Option<string>)
      requires Valid() && |players| <= |deck| && first < |players|
      modifies this`quests, this`currentQuest, this`rejectedTeams, this`currentQuestFailsRequired,
               players`role, players`isLoyal
      ensures forall i :: 0 <= i < |players| ==>
                players[i].role == deck[i] && players[i].isLoyal == IsLoyalRole(deck[i])
      ensures var f := Play(d, |players|, first, old(quests));
              winner == OutcomeName(f.outcome) && quests == f.quests && rejectedTeams == f.rejected &&
              currentQuest == f.currentQuest && currentQuestFailsRequired == FailsRequired[f.currentQuest]
      ensures winner == Some("Loyal Servants") || winner == Some("Minions")
    {
      AssignRoles(deck);
      var leaderIndex := AssignFirstLeader(first);
      rejectedTeams := 0;
      winner := QuestLoop(d, leaderIndex);
      PlayDecides(d, |players|, first, old(quests));
    }

    /** The quest loop of play_game, from the first leader: five quests, each with proposals until
        a team is approved; the fifth rejection in a row and three outcomes of one kind return. */
    method QuestLoop(d: Decisions, first: nat) returns (winner: Option<string>)
      requires first < |players| && rejectedTeams == 0
      modifies this`quests, this`currentQuest, this`rejectedTeams, this`currentQuestFailsRequired
      ensures var f := Play(d, |players|, first, old(quests));
              winner == OutcomeName(f.outcome) && quests == f.quests && rejectedTeams == f.rejected &&
              currentQuest == f.currentQuest && currentQuestFailsRequired == FailsRequired[f.currentQuest]
    {
      var n := |players|;
      var leaderIndex: nat := first;
      ghost var target := Play(d, n, first, quests);
      ghost var trace: seq<Proposal> := [];
      ghost var log: seq<Milestone> := [];
      var proposals := 0;
      var quest := 0;
      ghost var qs := quests;
      while quest < QuestCount
        invariant quest <= QuestCount && leaderIndex < n && proposals == |trace| && rejectedTeams == 0
        invariant quests == qs
        invariant FromQuest(d, n, quest, qs, leaderIndex, trace, log) == target
        invariant quest > 0 ==> currentQuest == quest - 1 && currentQuestFailsRequired == FailsRequired[quest - 1]
      {
        var done;
        done, winner, leaderIndex, proposals, trace, log :=
          PlayQuest(d, n, quest, leaderIndex, proposals, target, qs, trace, log);
        if done {
          return;
        }
        qs := quests;
        quest := quest + 1;
      }
      LoopExit(d, n, qs, leaderIndex, trace, log, target);
      winner := None;
    }

    /** One pass of the outer loop of play_game: quest `quest` starts, teams are proposed until
        one is approved or five in a row are rejected, and the win checks run. `done` says that
        the game has ended, with the result GameRules.FromQuest gives. The ghost milestones exist only
        to meet the targets of GameRules; they do not match the logging of avalon.py line for line. */
    method PlayQuest(d: Decisions, n: nat, quest: nat, leader: nat, k: nat, ghost target: Final,
                     ghost qs: seq<bool>, ghost trace: seq<Proposal>, ghost log: seq<Milestone>)
      returns (done: bool, winner: Option<string>, leaderIndex: nat, proposals: nat,
               ghost trace': seq<Proposal>, ghost log': seq<Milestone>)
      requires n == |players| && quest < QuestCount && leader < n && k == |trace| && rejectedTeams == 0
      requires quests == qs && FromQuest(d, n, quest, qs, leader, trace, log) == target
      modifies this`quests, this`currentQuest, this`rejectedTeams, this`currentQuestFailsRequired
      ensures currentQuest == quest && currentQuestFailsRequired == FailsRequired[quest]
      ensures done ==>
                winner == OutcomeName(target.outcome) && winner != None && quests == target.quests &&
                rejectedTeams == target.rejected && target.currentQuest == quest
      ensures !done ==>
                leaderIndex < n && proposals == |trace'| && rejectedTeams == 0 &&
                FromQuest(d, n, quest + 1, quests, leaderIndex, trace', log') == target
    {
      QuestStartStep(d, n, quest, qs, leader, trace, log, target);
      log' := log + [QuestStarted];
      currentQuest := quest;
      currentQuestFailsRequired := FailsRequired[quest];
      var fiveRejected;
      ghost var lastRejected, lastLeader, lastTrace, lastLog;
      fiveRejected, leaderIndex, proposals, trace', log', lastRejected, lastLeader, lastTrace, lastLog :=
        ProposeTeams(d, n, quest, leader, k, target, trace, log');
      done := true;
      if fiveRejected {
        winner := Some("Minions");
        return;
      }
      ProposalApprovedStep(d, n, quest, qs, lastRejected, lastLeader, lastTrace, lastLog, target);
      QuestEndStep(d, n, quest, quests, leaderIndex, trace', log', target);
      log' := log' + [QuestsResults];
      if Count(quests, true) >= WinningQuests {
        winner := Some("Loyal Servants");
        return;
      } else if Count(quests, false) >= WinningQuests {
        winner := Some("Minions");
        return;
      }
      done, winner := false, None;
    }

    /** The inner loop of play_game for quest `quest`: teams are proposed, leader after leader,
        until one is approved and its quest outcome recorded, or until the fifth rejection in a
        row, which ends the game. On acceptance the ghost results name the state of
        GameRules.FromProposal that made the approved proposal. */
    method ProposeTeams(d: Decisions, n: nat, quest: nat, leader: nat, k: nat, ghost target: Final,
                        ghost trace0: seq<Proposal>, ghost log0: seq<Milestone>)
      returns (fiveRejected: bool, leaderIndex: nat, proposals: nat,
               ghost trace: seq<Proposal>, ghost log: seq<Milestone>,
               ghost lastRejected: nat, ghost lastLeader: nat,
               ghost lastTrace: seq<Proposal>, ghost lastLog: seq<Milestone>)
      requires n == |players| && quest < QuestCount && leader < n && k == |trace0| && rejectedTeams == 0
      requires currentQuestFailsRequired == FailsRequired[quest]
      requires FromProposal(d, n, quest, quests, 0, leader, trace0, log0) == target
      modifies this`quests, this`rejectedTeams
      ensures leaderIndex < n && proposals == |trace|
      ensures fiveRejected ==> target == Final(Minions, quests, rejectedTeams, quest, trace, log)
      ensures !fiveRejected ==>
                rejectedTeams == 0 && lastRejected < MaxRejections && lastLeader < n &&
                FromProposal(d, n, quest, old(quests), lastRejected, lastLeader, lastTrace, lastLog) == target &&
                var p := MakeProposal(d, n, quest, lastRejected, lastLeader, |lastTrace|);
                p.approved && quests == old(quests) + [p.succeeded] && trace == lastTrace + [p] &&
                leaderIndex == NextLeader(lastLeader, n) &&
                log == lastLog + [ProposingTeam] + [LeaderTurn] + [TeamProposed] + [VoteResult] +
                         [QuestVotes] + [QuestResult]
    {
      leaderIndex, proposals, trace, log := leader, k, trace0, log0;
      ghost var qs := quests;
      ghost var rejected := 0;
      while true
        invariant leaderIndex < n && proposals == |trace|
        invariant qs == old(quests) && quests == qs && rejectedTeams == rejected < MaxRejections
        invariant FromProposal(d, n, quest, qs, rejected, leaderIndex, trace, log) == target
        decreases MaxRejections - rejected
      {
        lastRejected, lastLeader, lastTrace, lastLog := rejected, leaderIndex, trace, log;
        var teamAccepted;
        teamAccepted, fiveRejected, leaderIndex, trace, log :=
          NextProposal(d, n, quest, rejected, leaderIndex, proposals, target, qs, trace, log);
        proposals := proposals + 1;
        if teamAccepted || fiveRejected {
          return;
        }
        rejected := rejected + 1;
      }
    }

    /** One pass of the inner loop of play_game: the leader proposes a team of the quest's size,
        the roster votes and, for an approved team, the team conducts the quest, which records its
        outcome and resets the rejection counter; a rejected team counts one more rejection and
        the fifth ends the game; otherwise the game goes on from the state GameRules.FromProposal
        leads to. */
    method NextProposal(d: Decisions, n: nat, quest: nat, ghost rejected: nat, leader: nat, k: nat,
                        ghost target: Final, ghost qs: seq<bool>, ghost trace: seq<Proposal>,
                        ghost log: seq<Milestone>)
      returns (teamAccepted: bool, fiveRejected: bool, leaderIndex: nat,
               ghost trace': seq<Proposal>, ghost log': seq<Milestone>)
      requires n == |players| && quest < QuestCount && currentQuestFailsRequired == FailsRequired[quest]
      requires leader < n && k == |trace| && quests == qs && rejectedTeams == rejected < MaxRejections
      requires FromProposal(d, n, quest, qs, rejected, leader, trace, log) == target
      modifies this`quests, this`rejectedTeams
      ensures leaderIndex < n
      ensures var p := MakeProposal(d, n, quest, rejected, leader, k);
              trace' == trace + [p] && teamAccepted == p.approved && !(teamAccepted && fiveRejected) &&
              (teamAccepted ==>
                 rejectedTeams == 0 && quests == qs + [p.succeeded] && leaderIndex == NextLeader(leader, n) &&
                 log' == log + [ProposingTeam] + [LeaderTurn] + [TeamProposed] + [VoteResult] +
                           [QuestVotes] + [QuestResult])
      ensures fiveRejected ==> target == Final(Minions, quests, rejectedTeams, quest, trace', log')
      ensures !teamAccepted && !fiveRejected ==>
                quests == qs && rejectedTeams == rejected + 1 < MaxRejections &&
                FromProposal(d, n, quest, qs, rejected + 1, leaderIndex, trace', log') == target
    {
      trace' := trace + [MakeProposal(d, n, quest, rejected, leader, k)];
      log' := log + [ProposingTeam] + [LeaderTurn];
      var team := d.propose(k, leader, PlayersPerQuest[quest]);
      log' := log' + [TeamProposed];
      teamAccepted := VoteOnTeam(d, k, team);
      log' := log' + [VoteResult];
      leaderIndex := leader;
      fiveRejected := false;
      if teamAccepted {
        var succeeded := ConductQuest(d, k, team);
        log' := log' + [QuestVotes] + [QuestResult];
        if succeeded {
          quests := quests + [true];
        } else {
          quests := quests + [false];
        }
        rejectedTeams := 0;
      } else {
        ProposalRejectedStep(d, n, quest, qs, rejected, leader, trace, log, target);
        rejectedTeams := rejectedTeams + 1;
        if rejectedTeams >= MaxRejections {
          log' := log' + [FiveRejections];
          fiveRejected := true;
          return;
        }
      }
      leaderIndex := NextLeader(leaderIndex, n);
    }
  }
}
