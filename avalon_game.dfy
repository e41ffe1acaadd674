/** avalon/game.py and avalon/player/base.py: the current game engine and the player base class.
    The two classes refer to each other (a player holds its game, the game its players), so they
    share one module. Randomness (the shuffled deck, the first leader, the fantasy names) and the
    players' decisions are parameters; each log line is modelled by a short tag naming it. */
module AvalonGame {
  import opened Wrappers
  import opened Roles
  import opened GameRules
  import opened Logger

  // ---------------------------------------------------------------------------------------------
  // Log messages.

  function JoinMessage(name: string): string {
    name + " joins"
  }

  const DealMessage: string := "roles dealt"
  const EyesMessage: string := "evil eyes open"
  const EvilRosterMessage: string := "evil players"
  const FirstLeaderMessage: string := "first leader"

  function RoleMessage(role: string): string {
    "role " + role
  }

  /** The tag of each message play_game logs from its quest loop. */
  function MilestoneMessage(m: Milestone): string {
    match m
    case QuestStarted => "quest start"
    case ProposingTeam => "proposing"
    case LeaderTurn => "leader turn"
    case TeamProposed => "proposed"
    case VoteResult => "vote result"
    case QuestVotes => "quest votes"
    case QuestResult => "quest result"
    case FiveRejections => "five rejections"
    case QuestsResults => "quests results"
    case LoyalWin => "loyal win"
    case EvilWin => "evil win"
  }

  /** One join event per player name, in roster order. */
  function JoinEvents(names: seq<string>): (r: seq<Event>)
    ensures |r| == |names|
  {
    seq(|names|, i requires 0 <= i < |names| => Event(JoinMessage(names[i]), Public))
  }

  /** One admin event per dealt role, in roster order. */
  function RoleEvents(roles: seq<string>): (r: seq<Event>)
    ensures |r| == |roles|
  {
    seq(|roles|, i requires 0 <= i < |roles| => Event(RoleMessage(roles[i]), Admin))
  }

  lemma {:induction false} RoleEventsSnoc(start: seq<Event>, roles: seq<string>, i: nat, events: seq<Event>)
    requires i < |roles| && events == start + RoleEvents(roles[..i])
    ensures events + [Event(RoleMessage(roles[i]), Admin)] == start + RoleEvents(roles[..i + 1])
  {
    assert RoleEvents(roles[..i + 1]) == RoleEvents(roles[..i]) + [Event(RoleMessage(roles[i]), Admin)];
  }

  lemma {:induction false} JoinEventsSnoc(names: seq<string>, i: nat)
    requires i < |names|
    ensures JoinEvents(names[..i + 1]) == JoinEvents(names[..i]) + [Event(JoinMessage(names[i]), Public)]
  {
  }

  const DealEvent: Event := Event(DealMessage, Public)
  const EyesEvent: Event := Event(EyesMessage, Public)
  const EvilRosterEvent: Event := Event(EvilRosterMessage, Evil)
  const FirstLeaderEvent: Event := Event(FirstLeaderMessage, Public)

  /** The events of the set-up steps of play_game, given the roles dealt to the roster. */
  function SetupEvents(roles: seq<string>): seq<Event> {
    [DealEvent] + RoleEvents(roles) + [EyesEvent, EvilRosterEvent, FirstLeaderEvent]
  }

  /** The log after the set-up steps, call by call, holds the set-up events. */
  lemma {:induction false} SetupEventsInOrder(events0: seq<Event>, roles: seq<string>, events: seq<Event>)
    requires events == events0 + [DealEvent] + RoleEvents(roles) + [EyesEvent, EvilRosterEvent] + [FirstLeaderEvent]
    ensures events == events0 + SetupEvents(roles)
  {
    assert [EyesEvent, EvilRosterEvent] + [FirstLeaderEvent] == [EyesEvent, EvilRosterEvent, FirstLeaderEvent];
  }

  /** The events of the quest loop: every milestone is logged as a public event. */
  function PlayEvents(log: seq<Milestone>): (r: seq<Event>)
    ensures |r| == |log|
  {
    seq(|log|, i requires 0 <= i < |log| => Event(MilestoneMessage(log[i]), Public))
  }

  /** Logging one milestone after a log that holds the events of `log` extends it to the events
      of the longer log. */
  lemma {:induction false} PlayEventsSnoc(start: seq<Event>, log: seq<Milestone>, m: Milestone, events: seq<Event>)
    requires events == start + PlayEvents(log)
    ensures events + [Event(MilestoneMessage(m), Public)] == start + PlayEvents(log + [m])
  {
    assert PlayEvents(log + [m]) == PlayEvents(log) + [Event(MilestoneMessage(m), Public)];
  }

  /** A view of a log made of one event, a block, three events and a block is assembled from
      the views of its parts. */
  lemma {:induction false} ViewOfParts(a: Event, block: seq<Event>, b: Event, c: Event, e: Event,
                                       rest: seq<Event>, allowed: seq<EventVisibility>)
    ensures Filter([a] + block + [b, c, e] + rest, allowed) ==
              Admitted(a, allowed) + (Filter(block, allowed) + (Admitted(b, allowed) +
              (Admitted(c, allowed) + (Admitted(e, allowed) + Filter(rest, allowed)))))
  {
    var tail := [b] + ([c] + ([e] + rest));
    assert [a] + block + [b, c, e] + rest == [a] + (block + tail);
    calc {
      Filter([a] + (block + tail), allowed);
      { FilterCons(a, block + tail, allowed); }
      Admitted(a, allowed) + Filter(block + tail, allowed);
      { FilterAppend(block, tail, allowed); }
      Admitted(a, allowed) + (Filter(block, allowed) + Filter(tail, allowed));
      { FilterCons(b, [c] + ([e] + rest), allowed);
        FilterCons(c, [e] + rest, allowed);
        FilterCons(e, rest, allowed); }
      Admitted(a, allowed) + (Filter(block, allowed) +
        (Admitted(b, allowed) + (Admitted(c, allowed) + (Admitted(e, allowed) + Filter(rest, allowed)))));
    }
  }

  /** The loyal view of a set-up log: its public events and the public rest. */
  lemma {:induction false} PublicViewOfParts(a: Event, block: seq<Event>, b: Event, c: Event, e: Event,
                                             rest: seq<Event>)
    requires a.visibility == Public && b.visibility == Public && c.visibility == Evil && e.visibility == Public
    requires forall x :: x in block ==> x.visibility == Admin
    requires forall x :: x in rest ==> x.visibility == Public
    ensures Filter([a] + block + [b, c, e] + rest, [Public]) == [a, b, e] + rest
  {
    var allowed := [Public];
    ViewOfParts(a, block, b, c, e, rest, allowed);
    FilterDropsAll(block, allowed);
    FilterKeepsAll(rest, allowed);
    assert Admitted(a, allowed) == [a] && Admitted(b, allowed) == [b] &&
           Admitted(c, allowed) == [] && Admitted(e, allowed) == [e];
    assert [a] + ([] + ([b] + ([] + ([e] + rest)))) == [a, b, e] + rest;
  }

  /** The evil view of a set-up log: everything but the block. */
  lemma {:induction false} EvilViewOfParts(a: Event, block: seq<Event>, b: Event, c: Event, e: Event,
                                           rest: seq<Event>)
    requires a.visibility == Public && b.visibility == Public && c.visibility == Evil && e.visibility == Public
    requires forall x :: x in block ==> x.visibility == Admin
    requires forall x :: x in rest ==> x.visibility == Public
    ensures Filter([a] + block + [b, c, e] + rest, [Public, Evil]) == [a, b, c, e] + rest
  {
    var allowed := [Public, Evil];
    calc {
      Filter([a] + block + [b, c, e] + rest, allowed);
      { ViewOfParts(a, block, b, c, e, rest, allowed); }
      Admitted(a, allowed) + (Filter(block, allowed) + (Admitted(b, allowed) +
        (Admitted(c, allowed) + (Admitted(e, allowed) + Filter(rest, allowed)))));
      { FilterDropsAll(block, allowed); FilterKeepsAll(rest, allowed); }
      [a] + ([] + ([b] + ([c] + ([e] + rest))));
      { assert [] + ([b] + ([c] + ([e] + rest))) == [b, c, e] + rest; }
      [a, b, c, e] + rest;
    }
  }

  /** The admin-only view of a set-up log: the block alone. */
  lemma {:induction false} AdminViewOfParts(a: Event, block: seq<Event>, b: Event, c: Event, e: Event,
                                            rest: seq<Event>)
    requires a.visibility == Public && b.visibility == Public && c.visibility == Evil && e.visibility == Public
    requires forall x :: x in block ==> x.visibility == Admin
    requires forall x :: x in rest ==> x.visibility == Public
    ensures Filter([a] + block + [b, c, e] + rest, [Admin]) == block
  {
    ViewOfParts(a, block, b, c, e, rest, [Admin]);
    FilterKeepsAll(block, [Admin]);
    FilterDropsAll(rest, [Admin]);
  }

  /** A loyal player's view of the game's log: the public set-up events and the whole quest
      loop; no ADMIN role-assignment event and no EVIL roster event. (The text of public events
      is not modelled; see README on the allegiance tags it carries.) */
  lemma {:induction false} PublicViewOfGame(roles: seq<string>, log: seq<Milestone>)
    ensures Filter(SetupEvents(roles) + PlayEvents(log), [Public]) ==
              [DealEvent, EyesEvent, FirstLeaderEvent] + PlayEvents(log)
  {
    PublicViewOfParts(DealEvent, RoleEvents(roles), EyesEvent, EvilRosterEvent, FirstLeaderEvent, PlayEvents(log));
  }

  /** An evil player's view of the game's log adds the EVIL roster event, and still no ADMIN
      role-assignment event. */
  lemma {:induction false} EvilViewOfGame(roles: seq<string>, log: seq<Milestone>)
    ensures Filter(SetupEvents(roles) + PlayEvents(log), [Public, Evil]) ==
              [DealEvent, EyesEvent, EvilRosterEvent, FirstLeaderEvent] + PlayEvents(log)
  {
    EvilViewOfParts(DealEvent, RoleEvents(roles), EyesEvent, EvilRosterEvent, FirstLeaderEvent, PlayEvents(log));
  }

  /** The admin-only events of the game's log are exactly the role assignments, in roster order. */
  lemma {:induction false} AdminOnlyEventsOfGame(roles: seq<string>, log: seq<Milestone>)
    ensures Filter(SetupEvents(roles) + PlayEvents(log), [Admin]) == RoleEvents(roles)
  {
    AdminViewOfParts(DealEvent, RoleEvents(roles), EyesEvent, EvilRosterEvent, FirstLeaderEvent, PlayEvents(log));
  }

  /** With the full table of seven, a shuffled deck makes three players evil and four loyal. */
  lemma {:induction false} SevenPlayerDeal(players: seq<BasePlayer>, deck: seq<string>)
    requires IsShuffledDeck(deck) && |players| == 7
    ensures deck[..|players|] == deck
    ensures |EvilRoster(players, deck)| == 3 && CountLoyal(deck) == 4
  {
    DealtDeck(deck);
    EvilRosterSize(players, deck);
  }

  // ---------------------------------------------------------------------------------------------
  // avalon/player/base.py

  class BasePlayer {
    /** The player's class name, printed by __str__. */
    const className: string
    const name: string
    /** The roster index create_players passes to the player classes of avalon/player/. */
    const id: nat
    const game: Game
    const logger: GameLogger
    var knownEvilPlayers: seq<BasePlayer>
    var role: string
    var isLoyal: bool

    /** Stores the name and the game and takes the logger from the game. The role and the
        allegiance have no value in the source until assign_role; here they start as "" and
        false. */
    constructor (className: string, name: string, id: nat, game: Game)
      ensures this.className == className && this.name == name && this.id == id
      ensures this.game == game && logger == game.logger
      ensures knownEvilPlayers == []
      ensures role == "" && !isLoyal
    {
      this.className := className;
      this.name := name;
      this.id := id;
      this.game := game;
      this.logger := game.logger;
      knownEvilPlayers := [];
      role := "";
      isLoyal := false;
    }

    /** assign_role: the allegiance is a function of the role name alone. */
    method AssignRole(role: string)
      modifies this`role, this`isLoyal
      ensures this.role == role && isLoyal == IsLoyalRole(role)
    {
      this.role := role;
      isLoyal := role in [Merlin, LoyalServant];
    }

    /** The allegiance tag of __str__. */
    function LoyaltyTag(): (tag: string)
      reads this
      ensures tag == "Loyal" <==> isLoyal
      ensures tag == "Evil" <==> !isLoyal
    {
      assert "Loyal"[0] != "Evil"[0];
      if isLoyal then "Loyal" else "Evil"
    }
  }

  // ---------------------------------------------------------------------------------------------
  // avalon/game.py

  class Game {
    const logger: GameLogger
    const numPlayers: nat
    /** The dictionary from roster index to player, as the sequence of its values. */
    var players: seq<BasePlayer>
    var quests: seq<bool>
    var currentQuest: nat
    var rejectedTeams: nat
    var evilPlayers: seq<BasePlayer>
    var currentQuestFailsRequired: nat

    /** The roster: distinct players, player i with id i, each holding this game and its logger;
        the evil roster is drawn from it. */
    ghost predicate Valid()
      reads this`players, this`evilPlayers
    {
      (forall i, j :: 0 <= i < j < |players| ==> players[i] != players[j]) &&
      (forall i :: 0 <= i < |players| ==>
         players[i].id == i && players[i].game == this && players[i].logger == logger) &&
      (forall p :: p in evilPlayers ==> p in players)
    }

    /** __init__: one player per class, in order, named by the drawn names. */
    constructor (classNames: seq<string>, names: seq<string>)
      requires |names| == |classNames|
      ensures Valid() && fresh(logger) && numPlayers == 7
      ensures |players| == |classNames|
      ensures forall i :: 0 <= i < |players| ==>
                fresh(players[i]) && players[i].className == classNames[i] &&
                players[i].name == names[i] && players[i].knownEvilPlayers == []
      ensures quests == [] && currentQuest == 0 && rejectedTeams == 0 && evilPlayers == []
      ensures currentQuestFailsRequired == 0
      ensures logger.events == JoinEvents(names)
    {
      logger := new GameLogger();
      numPlayers := 7;
      new;
      players := CreatePlayers(classNames, names);
      quests := [];
      currentQuest := 0;
      rejectedTeams := 0;
      currentQuestFailsRequired := 0;
      evilPlayers := [];
    }

    /** create_players: player i gets class i, name i and id i, and each join is logged. */
    method CreatePlayers(classNames: seq<string>, names: seq<string>) returns (ps: seq<BasePlayer>)
      requires |names| == |classNames|
      modifies logger
      ensures |ps| == |classNames|
      ensures forall i :: 0 <= i < |ps| ==>
                fresh(ps[i]) && ps[i].className == classNames[i] && ps[i].name == names[i] &&
                ps[i].id == i && ps[i].game == this && ps[i].logger == logger &&
                ps[i].knownEvilPlayers == []
      ensures forall i, j :: 0 <= i < j < |ps| ==> ps[i] != ps[j]
      ensures logger.events == old(logger.events) + JoinEvents(names)
    {
      ps := [];
      var i := 0;
      while i < |classNames|
        invariant 0 <= i <= |classNames| && |ps| == i
        invariant forall k :: 0 <= k < i ==>
                    fresh(ps[k]) && ps[k].className == classNames[k] && ps[k].name == names[k] &&
                    ps[k].id == k && ps[k].game == this && ps[k].logger == logger &&
                    ps[k].knownEvilPlayers == []
        invariant forall k, l :: 0 <= k < l < i ==> ps[k] != ps[l]
        invariant logger.events == old(logger.events) + JoinEvents(names[..i])
      {
        var player := new BasePlayer(classNames[i], names[i], i, this);
        ps := ps + [player];
        logger.LogPublic(JoinMessage(names[i]));
        JoinEventsSnoc(names, i);
        i := i + 1;
      }
      assert names[..i] == names;
    }

    /** get_players_by_ids: the players with the given ids, in the given order; an id that is
        not a key of the roster raises KeyError, modelled as None. */
    function PlayersByIds(ids: seq<int>): (r: Option<seq<BasePlayer>>)
      reads this`players
      ensures r.Some? <==> forall j :: 0 <= j < |ids| ==> 0 <= ids[j] < |players|
      ensures r.Some? ==> |r.value| == |ids| &&
                          forall j :: 0 <= j < |ids| ==> r.value[j] == players[ids[j]]
    {
      if forall j :: 0 <= j < |ids| ==> 0 <= ids[j] < |players| then
        var roster := players;
        Some(seq(|ids|, j requires 0 <= j < |ids| => roster[ids[j]]))
      else None
    }

    /** assign_roles: player i gets role deck[i]; the evil roster lists the players dealt an evil
        role, in roster order. */
    method AssignRoles(deck: seq<string>)
      requires Valid() && |players| <= |deck|
      modifies this`evilPlayers, players`role, players`isLoyal, logger`events
      ensures Valid()
      ensures forall i :: 0 <= i < |players| ==>
                players[i].role == deck[i] && players[i].isLoyal == IsLoyalRole(deck[i]) &&
                players[i].knownEvilPlayers == old(players[i].knownEvilPlayers)
      ensures evilPlayers == EvilRoster(players, deck[..|players|])
      ensures logger.events == old(logger.events) + [DealEvent] + RoleEvents(deck[..|players|])
    {
      logger.LogPublic(DealMessage);
      evilPlayers := [];
      DealRoles(deck);
      EvilRosterMembers(players, deck[..|players|]);
      assert players[..|players|] == players;
    }

    /** The loop of assign_roles, from an empty evil roster. */
    method DealRoles(deck: seq<string>)
      requires |players| <= |deck| && evilPlayers == []
      requires forall i, j :: 0 <= i < j < |players| ==> players[i] != players[j]
      modifies this`evilPlayers, players`role, players`isLoyal, logger`events
      ensures forall k :: 0 <= k < |players| ==>
                players[k].role == deck[k] && players[k].isLoyal == IsLoyalRole(deck[k])
      ensures evilPlayers == EvilRoster(players, deck[..|players|])
      ensures logger.events == old(logger.events) + RoleEvents(deck[..|players|])
    {
      ghost var dealt := logger.events;
      var i := 0;
      while i < |players|
        invariant 0 <= i <= |players|
        invariant forall k :: 0 <= k < i ==>
                    players[k].role == deck[k] && players[k].isLoyal == IsLoyalRole(deck[k])
        invariant evilPlayers == EvilRoster(players, deck[..i])
        invariant logger.events == dealt + RoleEvents(deck[..i])
      {
        DealRole(players[i], deck, i, dealt);
        i := i + 1;
      }
    }

    /** One pass of the loop of assign_roles: player i takes role deck[i], joins the evil roster
        if that role is evil, and the deal is logged for the operator. */
    method DealRole(player: BasePlayer, deck: seq<string>, i: nat, ghost dealt: seq<Event>)
      requires i < |players| && i < |deck| && player == players[i]
      requires evilPlayers == EvilRoster(players, deck[..i])
      requires logger.events == dealt + RoleEvents(deck[..i])
      modifies this`evilPlayers, player`role, player`isLoyal, logger`events
      ensures player.role == deck[i] && player.isLoyal == IsLoyalRole(deck[i])
      ensures evilPlayers == EvilRoster(players, deck[..i + 1])
      ensures logger.events == dealt + RoleEvents(deck[..i + 1])
    {
      player.AssignRole(deck[i]);
      if !player.isLoyal {
        evilPlayers := evilPlayers + [player];
      }
      ghost var before := logger.events;
      logger.LogAdmin(RoleMessage(deck[i]));
      EvilRosterStep(players, deck, i);
      RoleEventsSnoc(dealt, deck, i, before);
    }

    /** reveal_evil_players: every evil player learns the evil roster; loyal players are left as
        they were. */
    method RevealEvilPlayers()
      requires Valid()
      modifies players, logger
      ensures forall i :: 0 <= i < |players| ==>
                players[i].role == old(players[i].role) && players[i].isLoyal == old(players[i].isLoyal)
      ensures forall i :: 0 <= i < |players| ==>
                players[i].knownEvilPlayers ==
                  if players[i] in evilPlayers then evilPlayers else old(players[i].knownEvilPlayers)
      ensures logger.events ==
                old(logger.events) + [EyesEvent, EvilRosterEvent]
    {
      logger.LogPublic(EyesMessage);
      var j := 0;
      while j < |evilPlayers|
        invariant 0 <= j <= |evilPlayers|
        invariant forall i :: 0 <= i < |players| ==>
                    players[i].role == old(players[i].role) && players[i].isLoyal == old(players[i].isLoyal)
        invariant forall i :: 0 <= i < |players| ==>
                    players[i].knownEvilPlayers ==
                      if players[i] in evilPlayers[..j] then evilPlayers else old(players[i].knownEvilPlayers)
        invariant logger.events == old(logger.events) + [EyesEvent]
      {
        assert evilPlayers[j] in players;
        evilPlayers[j].knownEvilPlayers := evilPlayers;
        assert evilPlayers[..j + 1] == evilPlayers[..j] + [evilPlayers[j]];
        j := j + 1;
      }
      assert evilPlayers[..j] == evilPlayers;
      logger.LogEvil(EvilRosterMessage);
    }

    /** assign_first_leader: the drawn index, which must be a roster position. */
    method AssignFirstLeader(leader: nat) returns (leaderIndex: nat)
      requires leader < |players|
      modifies logger`events
      ensures leaderIndex == leader && leaderIndex < |players|
      ensures logger.events == old(logger.events) + [FirstLeaderEvent]
    {
      leaderIndex := leader;
      logger.LogPublic(FirstLeaderMessage);
    }

    /** vote_on_team: the whole roster votes on proposal k; the result is a strict majority of
        yes votes (see GameRules.ApprovedIffMajority). */
    method VoteOnTeam(d: Decisions, k: nat, team: seq<nat>) returns (result: bool)
      modifies logger`events
      ensures result == Approved(Votes(d, |players|, k, team))
      ensures logger.events == old(logger.events) + [Event(MilestoneMessage(VoteResult), Public)]
    {
      var votes := Votes(d, |players|, k, team);
      result := Count(votes, true) > Count(votes, false);
      logger.LogPublic(MilestoneMessage(VoteResult));
    }

    /** conduct_quest: only the team members contribute, and the quest succeeds when fewer of
        them fail it than the current quest requires. */
    method ConductQuest(d: Decisions, k: nat, team: seq<nat>) returns (result: bool)
      modifies logger`events
      ensures result == QuestSucceeds(Contributions(d, k, team), currentQuestFailsRequired)
      ensures logger.events == old(logger.events) +
                [Event(MilestoneMessage(QuestVotes), Public)] + [Event(MilestoneMessage(QuestResult), Public)]
    {
      var votes := Contributions(d, k, team);
      var fails := Count(votes, false);
      result := fails < currentQuestFailsRequired;
      logger.LogPublic(MilestoneMessage(QuestVotes));
      logger.LogPublic(MilestoneMessage(QuestResult));
    }

    /** play_game: deals the roles, reveals the evil roster, picks the first leader and runs the
        quest loop, which ends as GameRules.Play says: the same winner, quest outcomes,
        rejection counter and current quest, and the same events in the log. */
    method PlayGame(deck: seq<string>, first: nat, d: Decisions) returns (winner: Option<string>)
      requires Valid() && |players| <= |deck| && first < |players|
      modifies this, players, logger
      ensures Valid() && players == old(players)
      ensures forall i :: 0 <= i < |players| ==>
                players[i].role == deck[i] && players[i].isLoyal == IsLoyalRole(deck[i])
      ensures evilPlayers == EvilRoster(players, deck[..|players|])
      ensures forall i :: 0 <= i < |players| ==>
                players[i].knownEvilPlayers ==
                  if !players[i].isLoyal then evilPlayers else old(players[i].knownEvilPlayers)
      ensures var f := Play(d, |players|, first, old(quests));
              winner == OutcomeName(f.outcome) && quests == f.quests && rejectedTeams == f.rejected &&
              currentQuest == f.currentQuest && currentQuestFailsRequired == FailsRequired[f.currentQuest] &&
              logger.events == old(logger.events) + SetupEvents(deck[..|players|]) + PlayEvents(f.log)
      ensures winner == Some("Loyal Servants") || winner == Some("Minions")
    {
      var leaderIndex := SetUp(deck, first);
      winner := QuestLoop(d, leaderIndex);
      PlayDecides(d, |players|, first, old(quests));
    }

    /** The set-up steps of play_game: assign_roles, reveal_evil_players, assign_first_leader and
        the reset of the rejection counter. */
    method SetUp(deck: seq<string>, first: nat) returns (leaderIndex: nat)
      requires Valid() && |players| <= |deck| && first < |players|
      modifies this`evilPlayers, this`rejectedTeams, players, logger
      ensures Valid() && leaderIndex == first && rejectedTeams == 0
      ensures forall i :: 0 <= i < |players| ==>
                players[i].role == deck[i] && players[i].isLoyal == IsLoyalRole(deck[i])
      ensures evilPlayers == EvilRoster(players, deck[..|players|])
      ensures forall i :: 0 <= i < |players| ==>
                players[i].knownEvilPlayers ==
                  if !players[i].isLoyal then evilPlayers else old(players[i].knownEvilPlayers)
      ensures logger.events == old(logger.events) + SetupEvents(deck[..|players|])
    {
      ghost var events0 := logger.events;
      AssignRoles(deck);
      EvilRosterMembers(players, deck[..|players|]);
      RevealEvilPlayers();
      leaderIndex := AssignFirstLeader(first);
      rejectedTeams := 0;
      SetupEventsInOrder(events0, deck[..|players|], logger.events);
    }

    /** log_public of one quest-loop message, tracked as a milestone. */
    method LogMilestone(m: Milestone, ghost start: seq<Event>, ghost log: seq<Milestone>)
      requires logger.events == start + PlayEvents(log)
      modifies logger`events
      ensures logger.events == start + PlayEvents(log + [m])
    {
      ghost var before := logger.events;
      logger.LogPublic(MilestoneMessage(m));
      PlayEventsSnoc(start, log, m, before);
    }

    /** The quest loop of play_game, from the first leader: five quests, each with proposals until
        a team is approved; the fifth rejection in a row and three outcomes of one kind return. */
    method QuestLoop(d: Decisions, first: nat) returns (winner: Option<string>)
      requires first < |players| && rejectedTeams == 0
      modifies this`quests, this`currentQuest, this`rejectedTeams, this`currentQuestFailsRequired, logger`events
      ensures var f := Play(d, |players|, first, old(quests));
              winner == OutcomeName(f.outcome) && quests == f.quests && rejectedTeams == f.rejected &&
              currentQuest == f.currentQuest && currentQuestFailsRequired == FailsRequired[f.currentQuest] &&
              logger.events == old(logger.events) + PlayEvents(f.log)
    {
      var n := |players|;
      var leaderIndex: nat := first;
      ghost var start := logger.events;
      ghost var target := Play(d, n, first, quests);
      ghost var trace: seq<Proposal> := [];
      ghost var log: seq<Milestone> := [];
      assert logger.events == start + PlayEvents(log);
      var proposals := 0;
      var quest := 0;
      ghost var qs := quests;
      while quest < QuestCount
        invariant quest <= QuestCount && leaderIndex < n && proposals == |trace| && rejectedTeams == 0
        invariant quests == qs
        invariant FromQuest(d, n, quest, qs, leaderIndex, trace, log) == target
        invariant logger.events == start + PlayEvents(log)
        invariant quest > 0 ==> currentQuest == quest - 1 && currentQuestFailsRequired == FailsRequired[quest - 1]
      {
        var done;
        done, winner, leaderIndex, proposals, trace, log :=
          PlayQuest(d, n, quest, leaderIndex, proposals, target, qs, trace, log, start);
        if done {
          return;
        }
        qs := quests;
        quest := quest + 1;
      }
      LoopExit(d, n, qs, leaderIndex, trace, log, target);
      winner := None;
    }

    /** One pass of the outer loop of play_game: quest `quest` starts, teams are proposed until
        one is approved or five in a row are rejected, and the win checks run. `done` says that
        the game has ended, with the result GameRules.FromQuest gives. */
    method PlayQuest(d: Decisions, n: nat, quest: nat, leader: nat, k: nat, ghost target: Final,
                     ghost qs: seq<bool>, ghost trace: seq<Proposal>, ghost log: seq<Milestone>,
                     ghost start: seq<Event>)
      returns (done: bool, winner: Option<string>, leaderIndex: nat, proposals: nat,
               ghost trace': seq<Proposal>, ghost log': seq<Milestone>)
      requires n == |players| && quest < QuestCount && leader < n && k == |trace| && rejectedTeams == 0
      requires quests == qs && FromQuest(d, n, quest, qs, leader, trace, log) == target
      requires logger.events == start + PlayEvents(log)
      modifies this`quests, this`currentQuest, this`rejectedTeams, this`currentQuestFailsRequired, logger`events
      ensures currentQuest == quest && currentQuestFailsRequired == FailsRequired[quest]
      ensures logger.events == start + PlayEvents(log')
      ensures done ==>
                winner == OutcomeName(target.outcome) && winner != None && quests == target.quests &&
                rejectedTeams == target.rejected && target.currentQuest == quest && log' == target.log
      ensures !done ==>
                leaderIndex < n && proposals == |trace'| && rejectedTeams == 0 &&
                FromQuest(d, n, quest + 1, quests, leaderIndex, trace', log') == target
    {
      QuestStartStep(d, n, quest, qs, leader, trace, log, target);
      LogMilestone(QuestStarted, start, log);
      log' := log + [QuestStarted];
      currentQuest := quest;
      currentQuestFailsRequired := FailsRequired[quest];
      var fiveRejected;
      ghost var lastRejected, lastLeader, lastTrace, lastLog;
      fiveRejected, leaderIndex, proposals, trace', log', lastRejected, lastLeader, lastTrace, lastLog :=
        ProposeTeams(d, n, quest, leader, k, target, trace, log', start);
      done := true;
      if fiveRejected {
        winner := Some("Minions");
        return;
      }
      ProposalApprovedStep(d, n, quest, qs, lastRejected, lastLeader, lastTrace, lastLog, target);
      QuestEndStep(d, n, quest, quests, leaderIndex, trace', log', target);
      LogMilestone(QuestsResults, start, log');
      log' := log' + [QuestsResults];
      if Count(quests, true) >= WinningQuests {
        LogMilestone(LoyalWin, start, log');
        log' := log' + [LoyalWin];
        winner := Some("Loyal Servants");
        return;
      } else if Count(quests, false) >= WinningQuests {
        LogMilestone(EvilWin, start, log');
        log' := log' + [EvilWin];
        winner := Some("Minions");
        return;
      }
      done, winner := false, None;
    }

    /** The inner loop of play_game for quest `quest`: teams are proposed, leader after leader,
        until one is approved and its quest outcome recorded, or until the fifth rejection in a
        row, which ends the game. On acceptance the ghost results name the state of
        GameRules.FromProposal that made the approved proposal. */
    method ProposeTeams(d: Decisions, n: nat, quest: nat, leader: nat, k: nat, ghost target: Final,
                        ghost trace0: seq<Proposal>, ghost log0: seq<Milestone>, ghost start: seq<Event>)
      returns (fiveRejected: bool, leaderIndex: nat, proposals: nat,
               ghost trace: seq<Proposal>, ghost log: seq<Milestone>,
               ghost lastRejected: nat, ghost lastLeader: nat,
               ghost lastTrace: seq<Proposal>, ghost lastLog: seq<Milestone>)
      requires n == |players| && quest < QuestCount && leader < n && k == |trace0| && rejectedTeams == 0
      requires currentQuest == quest && currentQuestFailsRequired == FailsRequired[quest]
      requires FromProposal(d, n, quest, quests, 0, leader, trace0, log0) == target
      requires logger.events == start + PlayEvents(log0)
      modifies this`quests, this`rejectedTeams, logger`events
      ensures leaderIndex < n && proposals == |trace| && logger.events == start + PlayEvents(log)
      ensures fiveRejected ==> target == Final(Minions, quests, rejectedTeams, quest, trace, log)
      ensures !fiveRejected ==>
                rejectedTeams == 0 && lastRejected < MaxRejections && lastLeader < n &&
                FromProposal(d, n, quest, old(quests), lastRejected, lastLeader, lastTrace, lastLog) == target &&
                var p := MakeProposal(d, n, quest, lastRejected, lastLeader, |lastTrace|);
                p.approved && quests == old(quests) + [p.succeeded] && trace == lastTrace + [p] &&
                leaderIndex == NextLeader(lastLeader, n) &&
                log == lastLog + [ProposingTeam] + [LeaderTurn] + [TeamProposed] + [VoteResult] +
                         [QuestVotes] + [QuestResult]
    {
      leaderIndex, proposals, trace, log := leader, k, trace0, log0;
      ghost var qs := quests;
      ghost var rejected := 0;
      while true
        invariant leaderIndex < n && proposals == |trace|
        invariant quests == qs && rejectedTeams == rejected < MaxRejections
        invariant FromProposal(d, n, quest, qs, rejected, leaderIndex, trace, log) == target
        invariant logger.events == start + PlayEvents(log)
        decreases MaxRejections - rejectedTeams
      {
        lastRejected, lastLeader, lastTrace, lastLog := rejected, leaderIndex, trace, log;
        var teamAccepted;
        teamAccepted, fiveRejected, leaderIndex, trace, log :=
          NextProposal(d, n, quest, rejected, leaderIndex, proposals, target, qs, trace, log, start);
        proposals := proposals + 1;
        if teamAccepted || fiveRejected {
          return;
        }
        rejected := rejected + 1;
      }
    }

    /** One pass of the inner loop of play_game, tied to the game: the proposal made is the next
        one of GameRules.FromProposal. An approved team records its quest outcome and resets the
        rejection counter; a rejected team counts one more rejection, and the fifth ends the game;
        otherwise the game goes on from the state GameRules.FromProposal leads to. */
    method NextProposal(d: Decisions, n: nat, quest: nat, ghost rejected: nat, leader: nat, k: nat,
                        ghost target: Final, ghost qs: seq<bool>, ghost trace: seq<Proposal>,
                        ghost log: seq<Milestone>, ghost start: seq<Event>)
      returns (teamAccepted: bool, fiveRejected: bool, leaderIndex: nat,
               ghost trace': seq<Proposal>, ghost log': seq<Milestone>)
      requires n == |players| && quest < QuestCount && currentQuestFailsRequired == FailsRequired[quest]
      requires leader < n && k == |trace| && quests == qs && rejectedTeams == rejected < MaxRejections
      requires FromProposal(d, n, quest, qs, rejected, leader, trace, log) == target
      requires logger.events == start + PlayEvents(log)
      modifies this`quests, this`rejectedTeams, logger`events
      ensures logger.events == start + PlayEvents(log') && leaderIndex < n
      ensures var p := MakeProposal(d, n, quest, rejected, leader, k);
              trace' == trace + [p] && teamAccepted == p.approved && !(teamAccepted && fiveRejected) &&
              (teamAccepted ==>
                 rejectedTeams == 0 && quests == qs + [p.succeeded] && leaderIndex == NextLeader(leader, n) &&
                 log' == log + [ProposingTeam] + [LeaderTurn] + [TeamProposed] + [VoteResult] +
                           [QuestVotes] + [QuestResult])
      ensures fiveRejected ==> target == Final(Minions, quests, rejectedTeams, quest, trace', log')
      ensures !teamAccepted && !fiveRejected ==>
                quests == qs && rejectedTeams == rejected + 1 < MaxRejections &&
                FromProposal(d, n, quest, qs, rejected + 1, leaderIndex, trace', log') == target
    {
      trace' := trace + [MakeProposal(d, n, quest, rejected, leader, k)];
      var succeeded;
      teamAccepted, succeeded, log' := ProposeTeam(d, quest, leader, k, start, log);
      leaderIndex := leader;
      fiveRejected := false;
      if teamAccepted {
        if succeeded {
          quests := quests + [true];
        } else {
          quests := quests + [false];
        }
        rejectedTeams := 0;
      } else {
        ProposalRejectedStep(d, n, quest, qs, rejected, leader, trace, log, target);
        rejectedTeams := rejectedTeams + 1;
        if rejectedTeams >= MaxRejections {
          LogMilestone(FiveRejections, start, log');
          log' := log' + [FiveRejections];
          fiveRejected := true;
          return;
        }
      }
      leaderIndex := NextLeader(leaderIndex, n);
    }

    /** One pass of the inner loop of play_game: the leader proposes a team of the quest's size,
        the roster votes on it and, when it is approved, the team conducts the quest. */
    method ProposeTeam(d: Decisions, quest: nat, leader: nat, k: nat, ghost start: seq<Event>,
                       ghost log: seq<Milestone>)
      returns (approved: bool, succeeded: bool, ghost log': seq<Milestone>)
      requires quest < QuestCount && currentQuestFailsRequired == FailsRequired[quest]
      requires logger.events == start + PlayEvents(log)
      modifies logger`events
      ensures var p := MakeProposal(d, |players|, quest, rejectedTeams, leader, k);
              approved == p.approved && (approved ==> succeeded == p.succeeded)
      ensures var voted := log + [ProposingTeam] + [LeaderTurn] + [TeamProposed] + [VoteResult];
              log' == if approved then voted + [QuestVotes] + [QuestResult] else voted
      ensures logger.events == start + PlayEvents(log')
    {
      log' := log;
      LogMilestone(ProposingTeam, start, log');
      log' := log' + [ProposingTeam];
      LogMilestone(LeaderTurn, start, log');
      log' := log' + [LeaderTurn];
      var team := d.propose(k, leader, PlayersPerQuest[quest]);
      LogMilestone(TeamProposed, start, log');
      log' := log' + [TeamProposed];
      ghost var before := logger.events;
      approved := VoteOnTeam(d, k, team);
      PlayEventsSnoc(start, log', VoteResult, before);
      log' := log' + [VoteResult];
      succeeded := false;
      if approved {
        before := logger.events;
        succeeded := ConductQuest(d, k, team);
        PlayEventsSnoc(start, log', QuestVotes, before);
        PlayEventsSnoc(start, log' + [QuestVotes], QuestResult, before + [Event(MilestoneMessage(QuestVotes), Public)]);
        log' := log' + [QuestVotes] + [QuestResult];
      }
    }
  }
}
