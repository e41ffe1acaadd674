/** The transition rules that the three copies of Game.play_game share (avalon/game.py, avalon.py,
    src/avalon.py): the quest tables, the vote and quest tallies, and a reference semantics of the
    quest loop as three mutually recursive functions, one per program point of the source's nested
    loops. Player decisions are inputs (Decisions); the functions also record a trace of every team
    proposal and the milestones that avalon/game.py logs. */
module GameRules {

  import opened Wrappers

  /** Team size of each quest (players_per_quest). */
  const PlayersPerQuest: seq<nat> := [2, 3, 3, 4, 4]
  /** Number of failing contributions that fails each quest (fails_required). */
  const FailsRequired: seq<nat> := [1, 1, 1, 2, 1]
  /** for quest in range(5) */
  const QuestCount: nat := 5
  /** Rejected teams in a row that end the game. */
  const MaxRejections: nat := 5
  /** Quest outcomes of one kind that decide the game. */
  const WinningQuests: nat := 3

  /** Python's list.count on a list of booleans. */
  function Count(s: seq<bool>, b: bool): (c: nat)
    ensures c <= |s|
  {
    if s == [] then 0 else Count(s[..|s| - 1], b) + (if s[|s| - 1] == b then 1 else 0)
  }

  lemma {:induction false} CountAppend(s: seq<bool>, t: seq<bool>, b: bool)
    ensures Count(s + t, b) == Count(s, b) + Count(t, b)
  {
    if t != [] {
      var u := s + t;
      CountAppend(s, t[..|t| - 1], b);
      assert u != [] && u[..|u| - 1] == s + t[..|t| - 1];
      assert u[|u| - 1] == t[|t| - 1];
      assert Count(u, b) == Count(u[..|u| - 1], b) + (if u[|u| - 1] == b then 1 else 0);
    } else {
      assert s + t == s;
    }
  }

  lemma {:induction false} CountTotal(s: seq<bool>)
    ensures Count(s, true) + Count(s, false) == |s|
  {
    if s != [] {
      CountTotal(s[..|s| - 1]);
    }
  }

  /** A list holding only b counts all its entries as b and none as !b. */
  lemma {:induction false} CountUniform(s: seq<bool>, b: bool)
    requires forall i :: 0 <= i < |s| ==> s[i] == b
    ensures Count(s, b) == |s| && Count(s, !b) == 0
  {
    if s != [] {
      CountUniform(s[..|s| - 1], b);
    }
  }

  lemma {:induction false} CountUniformPrefix(s: seq<bool>, b: bool, k: nat)
    requires forall i :: 0 <= i < |s| ==> s[i] == b
    requires k <= |s|
    ensures Count(s[..k], b) == k
  {
    CountUniform(s[..k], b);
  }

  /** Five more quest outcomes always give one side three of them: the fall-through after the
      fifth quest cannot be reached. */
  lemma {:induction false} FiveOutcomesDecide(earlier: seq<bool>, outcomes: seq<bool>)
    requires |outcomes| == QuestCount
    ensures Count(earlier + outcomes, true) >= WinningQuests || Count(earlier + outcomes, false) >= WinningQuests
  {
    CountAppend(earlier, outcomes, true);
    CountAppend(earlier, outcomes, false);
    CountTotal(outcomes);
  }

  /** vote_on_team: the team is approved when strictly more players vote True than False. */
  predicate Approved(votes: seq<bool>) {
    Count(votes, true) > Count(votes, false)
  }

  /** Approval is a strict majority of all voters; a tie rejects. */
  lemma {:induction false} ApprovedIffMajority(votes: seq<bool>)
    ensures Approved(votes) <==> 2 * Count(votes, true) > |votes|
    ensures 2 * Count(votes, true) == |votes| ==> !Approved(votes)
  {
    CountTotal(votes);
  }

  /** With the seven-player roster, a team needs at least four yes votes. */
  lemma {:induction false} SevenVotersNeedFour(votes: seq<bool>)
    requires |votes| == 7
    ensures Approved(votes) <==> Count(votes, true) >= 4
  {
    ApprovedIffMajority(votes);
  }

  /** conduct_quest: the quest succeeds when fewer contributions fail than the quest requires. */
  predicate QuestSucceeds(contributions: seq<bool>, failsRequired: nat) {
    Count(contributions, false) < failsRequired
  }

  /** On the fourth quest two failing contributions are needed: a team with exactly two failing
      members fails it, a team with one does not. */
  lemma {:induction false} FourthQuestNeedsTwoFails(contributions: seq<bool>)
    ensures Count(contributions, false) == 2 ==> !QuestSucceeds(contributions, FailsRequired[3])
    ensures Count(contributions, false) == 1 ==> QuestSucceeds(contributions, FailsRequired[3])
    ensures forall q :: 0 <= q < QuestCount && q != 3 ==>
              (QuestSucceeds(contributions, FailsRequired[q]) <==> Count(contributions, false) == 0)
  {
  }

  /** The decisions of the players, indexed by the number k of team proposals made before:
      the team proposed by the leader for a quest of the given size, the vote of each roster
      member on a team, and the contribution made at each slot of the team list to its quest
      (a team listing a player twice asks that player once per slot). These replace
      propose_team, vote_on_team and conduct_quest of the player classes. */
  datatype Decisions = Decisions(
    propose: (nat, nat, nat) -> seq<nat>,   // (k, leader, team size) -> team
    vote: (nat, nat, seq<nat>) -> bool,     // (k, voter, team) -> vote
    conduct: (nat, nat, seq<nat>) -> bool   // (k, team slot, team) -> contribution
  )

  /** The votes of all n roster members on proposal k, in roster order. */
  function Votes(d: Decisions, n: nat, k: nat, team: seq<nat>): (votes: seq<bool>)
    ensures |votes| == n
  {
    seq(n, i requires 0 <= i < n => d.vote(k, i, team))
  }

  /** The contributions of the team members only, one per slot of the team list, in team order. */
  function Contributions(d: Decisions, k: nat, team: seq<nat>): (contributions: seq<bool>)
    ensures |contributions| == |team|
  {
    seq(|team|, j requires 0 <= j < |team| => d.conduct(k, j, team))
  }

  /** One team proposal: the quest it belongs to, its leader, the team, the rejections counted
      before its vote, the vote result and, for an approved team, the quest result. */
  datatype Proposal = Proposal(quest: nat, leader: nat, team: seq<nat>, rejections: nat,
                               approved: bool, succeeded: bool)

  /** The events play_game logs from its quest loop, in order. */
  datatype Milestone =
    | QuestStarted | ProposingTeam | LeaderTurn | TeamProposed | VoteResult
    | QuestVotes | QuestResult | FiveRejections | QuestsResults | LoyalWin | EvilWin

  /** NoWinner is the fall-through after five quests, where the Python function returns None. */
  datatype Outcome = LoyalServants | Minions | NoWinner

  /** The state play_game leaves behind when it returns. */
  datatype Final = Final(outcome: Outcome, quests: seq<bool>, rejected: nat, currentQuest: nat,
                         trace: seq<Proposal>, log: seq<Milestone>)

  /** The top of quest q of the outer loop. */
  function FromQuest(d: Decisions, n: nat, q: nat, quests: seq<bool>, leader: nat,
                     trace: seq<Proposal>, log: seq<Milestone>): (f: Final)
    requires 0 < n && leader < n && q <= QuestCount
    ensures f.currentQuest < QuestCount
    decreases QuestCount - q, 2, 0
  {
    if q == QuestCount then Final(NoWinner, quests, 0, QuestCount - 1, trace, log)
    else FromProposal(d, n, q, quests, 0, leader, trace, log + [QuestStarted])
  }

  /** Proposal number k, made by `leader` for quest q after `rejected` rejections: the team the
      leader proposes for the quest's size, the vote of the whole roster and, when approved, the
      contributions of the team members against the quest's fail threshold. */
  function MakeProposal(d: Decisions, n: nat, q: nat, rejected: nat, leader: nat, k: nat): (p: Proposal)
    requires q < QuestCount
  {
    var team := d.propose(k, leader, PlayersPerQuest[q]);
    var approved := Approved(Votes(d, n, k, team));
    Proposal(q, leader, team, rejected, approved,
             approved && QuestSucceeds(Contributions(d, k, team), FailsRequired[q]))
  }

  /** The top of the inner loop: a proposal for quest q after `rejected` rejections. The leader
      moves on after every proposal; the fifth rejection in a row returns before it does. */
  function FromProposal(d: Decisions, n: nat, q: nat, quests: seq<bool>, rejected: nat, leader: nat,
                        trace: seq<Proposal>, log: seq<Milestone>): (f: Final)
    requires 0 < n && leader < n && q < QuestCount && rejected < MaxRejections
    ensures f.currentQuest < QuestCount
    decreases QuestCount - q, 1, MaxRejections - rejected
  {
    var p := MakeProposal(d, n, q, rejected, leader, |trace|);
    var log' := log + [ProposingTeam, LeaderTurn, TeamProposed, VoteResult];
    if p.approved then
      AfterQuest(d, n, q, quests + [p.succeeded], NextLeader(leader, n), trace + [p],
                 log' + [QuestVotes, QuestResult])
    else if rejected + 1 >= MaxRejections then
      Final(Minions, quests, rejected + 1, q, trace + [p], log' + [FiveRejections])
    else
      FromProposal(d, n, q, quests, rejected + 1, NextLeader(leader, n), trace + [p], log')
  }

  /** The leader of the next proposal, whichever way the vote went. */
  function NextLeader(leader: nat, n: nat): (next: nat)
    requires 0 < n
    ensures next < n
  {
    (leader + 1) % n
  }

  /** After the inner loop of quest q: the win check. */
  function AfterQuest(d: Decisions, n: nat, q: nat, quests: seq<bool>, leader: nat,
                      trace: seq<Proposal>, log: seq<Milestone>): (f: Final)
    requires 0 < n && leader < n && q < QuestCount
    ensures f.currentQuest < QuestCount
    decreases QuestCount - q, 0, 0
  {
    var log' := log + [QuestsResults];
    if Count(quests, true) >= WinningQuests then Final(LoyalServants, quests, 0, q, trace, log' + [LoyalWin])
    else if Count(quests, false) >= WinningQuests then Final(Minions, quests, 0, q, trace, log' + [EvilWin])
    else FromQuest(d, n, q + 1, quests, leader, trace, log')
  }

  /** The quest loop of play_game on n players, from first leader `first`, with the outcomes
      `quests0` that the game object already holds. */
  function Play(d: Decisions, n: nat, first: nat, quests0: seq<bool>): Final
    requires 0 < n && first < n
  {
    FromQuest(d, n, 0, quests0, first, [], [])
  }

  // ---------------------------------------------------------------------------------------------
  // Invariants of the reference semantics.

  function Last(trace: seq<Proposal>): Proposal
    requires trace != []
  {
    trace[|trace| - 1]
  }

  /** The quest outcomes recorded by the approved proposals of a trace, in order. */
  function Results(trace: seq<Proposal>): (r: seq<bool>)
    ensures |r| <= |trace|
  {
    if trace == [] then []
    else Results(trace[..|trace| - 1]) + (if Last(trace).approved then [Last(trace).succeeded] else [])
  }

  ghost predicate Undecided(quests: seq<bool>) {
    Count(quests, true) < WinningQuests && Count(quests, false) < WinningQuests
  }

  /** Proposal j was made for a quest in range, after fewer than five rejections, with the team,
      votes and contributions that the decisions give. */
  ghost predicate ProposalOk(d: Decisions, n: nat, p: Proposal, j: nat) {
    p.quest < QuestCount && p.rejections < MaxRejections &&
    p == MakeProposal(d, n, p.quest, p.rejections, p.leader, j)
  }

  /** Proposal p' comes right after p: an approval moves to the next quest with the counter reset,
      a rejection stays on the quest with the counter one higher. */
  predicate Follows(p: Proposal, p': Proposal) {
    if p.approved then p'.quest == p.quest + 1 && p'.rejections == 0
    else p'.quest == p.quest && p'.rejections == p.rejections + 1
  }


  /** The slot (quest q, counter r) the next proposal of the trace takes. */
  predicate NextSlot(trace: seq<Proposal>, q: nat, r: nat) {
    if trace == [] then q == 0 && r == 0
    else Follows(Last(trace), Proposal(q, 0, [], r, false, false))
  }

  /** The leader of the next proposal of the trace. */
  predicate NextLeaderIs(trace: seq<Proposal>, n: nat, first: nat, leader: nat)
    requires 0 < n
  {
    if trace == [] then leader == first else leader == NextLeader(Last(trace).leader, n)
  }

  ghost predicate TraceOk(d: Decisions, n: nat, first: nat, trace: seq<Proposal>) {
    0 < n &&
    (forall j :: 0 <= j < |trace| ==> ProposalOk(d, n, trace[j], j)) &&
    (trace != [] ==> trace[0].quest == 0 && trace[0].rejections == 0 && trace[0].leader == first) &&
    (forall j :: 0 < j < |trace| ==>
       Follows(trace[j - 1], trace[j]) && trace[j].leader == NextLeader(trace[j - 1].leader, n))
  }

  ghost predicate Common(d: Decisions, n: nat, first: nat, quests0: seq<bool>, quests: seq<bool>,
                         leader: nat, trace: seq<Proposal>) {
    0 < n && TraceOk(d, n, first, trace) && NextLeaderIs(trace, n, first, leader) &&
    quests == quests0 + Results(trace)
  }

  ghost predicate AtProposal(d: Decisions, n: nat, first: nat, quests0: seq<bool>, q: nat,
                             quests: seq<bool>, rejected: nat, leader: nat, trace: seq<Proposal>) {
    Common(d, n, first, quests0, quests, leader, trace) && NextSlot(trace, q, rejected) &&
    |quests| == |quests0| + q &&
    (forall i :: |quests0| < i <= |quests| ==> Undecided(quests[..i]))
  }

  ghost predicate AtQuestEnd(d: Decisions, n: nat, first: nat, quests0: seq<bool>, q: nat,
                             quests: seq<bool>, leader: nat, trace: seq<Proposal>) {
    Common(d, n, first, quests0, quests, leader, trace) && trace != [] &&
    Last(trace).approved && Last(trace).quest == q &&
    |quests| == |quests0| + q + 1 &&
    (forall i :: |quests0| < i < |quests| ==> Undecided(quests[..i]))
  }

  /** What every run of the quest loop ends in. */
  ghost predicate FinalOk(d: Decisions, n: nat, first: nat, quests0: seq<bool>, f: Final) {
    f.outcome != NoWinner &&
    TraceOk(d, n, first, f.trace) && f.trace != [] &&
    f.quests == quests0 + Results(f.trace) &&
    f.currentQuest == Last(f.trace).quest &&
    |f.quests| <= |quests0| + QuestCount &&
    (forall i :: |quests0| < i < |f.quests| ==> Undecided(f.quests[..i])) &&
    (f.outcome == LoyalServants ==>
       f.rejected == 0 && Last(f.trace).approved && Count(f.quests, true) >= WinningQuests) &&
    (f.outcome == Minions ==>
       (f.rejected == MaxRejections && !Last(f.trace).approved &&
        Last(f.trace).rejections == MaxRejections - 1 &&
        (|f.quests| > |quests0| ==> Undecided(f.quests))) ||
       (f.rejected == 0 && Last(f.trace).approved &&
        Count(f.quests, true) < WinningQuests && Count(f.quests, false) >= WinningQuests))
  }

  lemma {:induction false} ResultsAppend(trace: seq<Proposal>, p: Proposal)
    ensures Results(trace + [p]) == Results(trace) + (if p.approved then [p.succeeded] else [])
  {
    assert (trace + [p])[..|trace|] == trace;
  }

  lemma {:induction false} TraceAppend(d: Decisions, n: nat, first: nat, trace: seq<Proposal>, p: Proposal)
    requires TraceOk(d, n, first, trace)
    requires ProposalOk(d, n, p, |trace|)
    requires NextSlot(trace, p.quest, p.rejections)
    requires NextLeaderIs(trace, n, first, p.leader)
    ensures TraceOk(d, n, first, trace + [p])
  {
    var t := trace + [p];
    forall j | 0 <= j < |t| ensures ProposalOk(d, n, t[j], j) {
      if j < |trace| { assert t[j] == trace[j]; }
    }
    forall j | 0 < j < |t| ensures Follows(t[j - 1], t[j]) && t[j].leader == NextLeader(t[j - 1].leader, n) {
      if j < |trace| { assert t[j - 1] == trace[j - 1] && t[j] == trace[j]; }
    }
  }

  /** One proposal keeps the common invariant. */
  lemma {:induction false} StepOk(d: Decisions, n: nat, first: nat, quests0: seq<bool>, q: nat, quests: seq<bool>,
               rejected: nat, leader: nat, trace: seq<Proposal>)
    requires 0 < n && leader < n && q < QuestCount && rejected < MaxRejections
    requires AtProposal(d, n, first, quests0, q, quests, rejected, leader, trace)
    ensures var p := MakeProposal(d, n, q, rejected, leader, |trace|);
            Common(d, n, first, quests0, quests + (if p.approved then [p.succeeded] else []),
                   NextLeader(leader, n), trace + [p]) &&
            Last(trace + [p]) == p
  {
    var p := MakeProposal(d, n, q, rejected, leader, |trace|);
    TraceAppend(d, n, first, trace, p);
    ResultsAppend(trace, p);
    assert quests + (if p.approved then [p.succeeded] else []) == quests0 + Results(trace + [p]);
  }

  /** Each of the three program points of the quest loop, started in its invariant, ends in a
      state that satisfies FinalOk. The end state f is a parameter so that the recursive
      functions stay folded in the goal. */
  lemma {:induction false} FromQuestOk(d: Decisions, n: nat, first: nat, quests0: seq<bool>, q: nat,
                                       quests: seq<bool>, leader: nat, trace: seq<Proposal>,
                                       log: seq<Milestone>, f: Final)
    requires 0 < n && leader < n && q <= QuestCount
    requires AtProposal(d, n, first, quests0, q, quests, 0, leader, trace)
    requires f == FromQuest(d, n, q, quests, leader, trace, log)
    ensures FinalOk(d, n, first, quests0, f)
    decreases QuestCount - q, 2, 0
  {
    if q == QuestCount {
      assert quests[..|quests|] == quests;
      assert Undecided(quests);
      FiveOutcomesDecide(quests0, Results(trace));
      assert false;
    } else {
      FromProposalOk(d, n, first, quests0, q, quests, 0, leader, trace, log + [QuestStarted], f);
    }
  }

  /** The fifth rejection in a row ends the game in a state that satisfies FinalOk. */
  lemma {:induction false} FifthRejectionOk(d: Decisions, n: nat, first: nat, quests0: seq<bool>, q: nat,
                         quests: seq<bool>, leader: nat, trace: seq<Proposal>, p: Proposal,
                         log: seq<Milestone>)
    requires 0 < n && q < QuestCount
    requires Common(d, n, first, quests0, quests, leader, trace + [p]) && Last(trace + [p]) == p
    requires p.quest == q && !p.approved && p.rejections == MaxRejections - 1
    requires |quests| == |quests0| + q
    requires forall i :: |quests0| < i <= |quests| ==> Undecided(quests[..i])
    ensures FinalOk(d, n, first, quests0, Final(Minions, quests, MaxRejections, q, trace + [p], log))
  {
    assert quests[..|quests|] == quests;
  }

  /** An approved proposal ends the inner loop in a state that satisfies AtQuestEnd. */
  lemma {:induction false} ApprovalOk(d: Decisions, n: nat, first: nat, quests0: seq<bool>, q: nat, quests: seq<bool>,
                   leader: nat, trace: seq<Proposal>, p: Proposal)
    requires Common(d, n, first, quests0, quests + [p.succeeded], leader, trace + [p])
    requires Last(trace + [p]) == p && p.approved && p.quest == q
    requires |quests| == |quests0| + q
    requires forall i :: |quests0| < i <= |quests| ==> Undecided(quests[..i])
    ensures AtQuestEnd(d, n, first, quests0, q, quests + [p.succeeded], leader, trace + [p])
  {
    var quests' := quests + [p.succeeded];
    forall i | |quests0| < i < |quests'| ensures Undecided(quests'[..i]) {
      assert quests'[..i] == quests[..i];
    }
  }

  /** A rejection short of the fifth keeps the inner loop's invariant. */
  lemma {:induction false} RejectionOk(d: Decisions, n: nat, first: nat, quests0: seq<bool>, q: nat, quests: seq<bool>,
                    leader: nat, trace: seq<Proposal>, p: Proposal)
    requires Common(d, n, first, quests0, quests, leader, trace + [p])
    requires Last(trace + [p]) == p && !p.approved && p.quest == q
    requires |quests| == |quests0| + q
    requires forall i :: |quests0| < i <= |quests| ==> Undecided(quests[..i])
    ensures AtProposal(d, n, first, quests0, q, quests, p.rejections + 1, leader, trace + [p])
  {
  }

  lemma {:induction false} FromProposalOk(d: Decisions, n: nat, first: nat, quests0: seq<bool>, q: nat,
                                          quests: seq<bool>, rejected: nat, leader: nat,
                                          trace: seq<Proposal>, log: seq<Milestone>, f: Final)
    requires 0 < n && leader < n && q < QuestCount && rejected < MaxRejections
    requires AtProposal(d, n, first, quests0, q, quests, rejected, leader, trace)
    requires f == FromProposal(d, n, q, quests, rejected, leader, trace, log)
    ensures FinalOk(d, n, first, quests0, f)
    decreases QuestCount - q, 1, MaxRejections - rejected
  {
    var p := MakeProposal(d, n, q, rejected, leader, |trace|);
    var log' := log + [ProposingTeam, LeaderTurn, TeamProposed, VoteResult];
    var next := NextLeader(leader, n);
    StepOk(d, n, first, quests0, q, quests, rejected, leader, trace);
    if p.approved {
      ApprovalOk(d, n, first, quests0, q, quests, next, trace, p);
      AfterQuestOk(d, n, first, quests0, q, quests + [p.succeeded], next, trace + [p],
                   log' + [QuestVotes, QuestResult], f);
    } else if rejected + 1 >= MaxRejections {
      assert quests + [] == quests;
      FifthRejectionOk(d, n, first, quests0, q, quests, next, trace, p, log' + [FiveRejections]);
    } else {
      assert quests + [] == quests;
      RejectionOk(d, n, first, quests0, q, quests, next, trace, p);
      FromProposalOk(d, n, first, quests0, q, quests, rejected + 1, next, trace + [p], log', f);
    }
  }

  /** A quest end at which one side has three outcomes ends the game in a state that satisfies
      FinalOk. */
  lemma {:induction false} DecidedOk(d: Decisions, n: nat, first: nat, quests0: seq<bool>, q: nat,
                                     quests: seq<bool>, leader: nat, trace: seq<Proposal>,
                                     outcome: Outcome, log: seq<Milestone>)
    requires AtQuestEnd(d, n, first, quests0, q, quests, leader, trace) && q < QuestCount
    requires outcome == LoyalServants ==> Count(quests, true) >= WinningQuests
    requires outcome == Minions ==> Count(quests, true) < WinningQuests && Count(quests, false) >= WinningQuests
    requires outcome != NoWinner
    ensures FinalOk(d, n, first, quests0, Final(outcome, quests, 0, q, trace, log))
  {
  }

  lemma {:induction false} AfterQuestOk(d: Decisions, n: nat, first: nat, quests0: seq<bool>, q: nat,
                                        quests: seq<bool>, leader: nat, trace: seq<Proposal>,
                                        log: seq<Milestone>, f: Final)
    requires 0 < n && leader < n && q < QuestCount
    requires AtQuestEnd(d, n, first, quests0, q, quests, leader, trace)
    requires f == AfterQuest(d, n, q, quests, leader, trace, log)
    ensures FinalOk(d, n, first, quests0, f)
    decreases QuestCount - q, 0, 0
  {
    var log' := log + [QuestsResults];
    if Count(quests, true) >= WinningQuests {
      DecidedOk(d, n, first, quests0, q, quests, leader, trace, LoyalServants, log' + [LoyalWin]);
    } else if Count(quests, false) >= WinningQuests {
      DecidedOk(d, n, first, quests0, q, quests, leader, trace, Minions, log' + [EvilWin]);
    } else {
      forall i | |quests0| < i <= |quests| ensures Undecided(quests[..i]) {
        if i == |quests| { assert quests[..i] == quests; }
      }
      FromQuestOk(d, n, first, quests0, q + 1, quests, leader, trace, log', f);
    }
  }

  /** Every run of the quest loop satisfies FinalOk. */
  lemma {:induction false} PlayOk(d: Decisions, n: nat, first: nat, quests0: seq<bool>)
    requires 0 < n && first < n
    ensures FinalOk(d, n, first, quests0, Play(d, n, first, quests0))
  {
    assert quests0 + Results([]) == quests0;
    FromQuestOk(d, n, first, quests0, 0, quests0, first, [], [], Play(d, n, first, quests0));
  }

  // ---------------------------------------------------------------------------------------------
  // One step of each program point, with the log grown one milestone at a time as play_game
  // logs it.

  lemma {:induction false} QuestStartStep(d: Decisions, n: nat, q: nat, quests: seq<bool>, leader: nat,
                                          trace: seq<Proposal>, log: seq<Milestone>, target: Final)
    requires 0 < n && leader < n && q < QuestCount
    requires FromQuest(d, n, q, quests, leader, trace, log) == target
    ensures FromProposal(d, n, q, quests, 0, leader, trace, log + [QuestStarted]) == target
  {
  }

  lemma {:induction false} ProposalApprovedStep(d: Decisions, n: nat, q: nat, quests: seq<bool>, rejected: nat,
                                                leader: nat, trace: seq<Proposal>, log: seq<Milestone>, target: Final)
    requires 0 < n && leader < n && q < QuestCount && rejected < MaxRejections
    requires FromProposal(d, n, q, quests, rejected, leader, trace, log) == target
    requires MakeProposal(d, n, q, rejected, leader, |trace|).approved
    ensures var p := MakeProposal(d, n, q, rejected, leader, |trace|);
            AfterQuest(d, n, q, quests + [p.succeeded], NextLeader(leader, n), trace + [p],
                       log + [ProposingTeam] + [LeaderTurn] + [TeamProposed] + [VoteResult] +
                       [QuestVotes] + [QuestResult]) == target
  {
    assert log + [ProposingTeam] + [LeaderTurn] + [TeamProposed] + [VoteResult] + [QuestVotes] + [QuestResult] ==
           log + [ProposingTeam, LeaderTurn, TeamProposed, VoteResult] + [QuestVotes, QuestResult];
  }

  lemma {:induction false} ProposalRejectedStep(d: Decisions, n: nat, q: nat, quests: seq<bool>, rejected: nat,
                                                leader: nat, trace: seq<Proposal>, log: seq<Milestone>, target: Final)
    requires 0 < n && leader < n && q < QuestCount && rejected < MaxRejections
    requires FromProposal(d, n, q, quests, rejected, leader, trace, log) == target
    requires !MakeProposal(d, n, q, rejected, leader, |trace|).approved
    ensures var p := MakeProposal(d, n, q, rejected, leader, |trace|);
            var voted := log + [ProposingTeam] + [LeaderTurn] + [TeamProposed] + [VoteResult];
            (rejected + 1 >= MaxRejections ==>
               target == Final(Minions, quests, rejected + 1, q, trace + [p], voted + [FiveRejections])) &&
            (rejected + 1 < MaxRejections ==>
               FromProposal(d, n, q, quests, rejected + 1, NextLeader(leader, n), trace + [p], voted) == target)
  {
    assert log + [ProposingTeam] + [LeaderTurn] + [TeamProposed] + [VoteResult] ==
           log + [ProposingTeam, LeaderTurn, TeamProposed, VoteResult];
  }

  lemma {:induction false} QuestEndStep(d: Decisions, n: nat, q: nat, quests: seq<bool>, leader: nat,
                                        trace: seq<Proposal>, log: seq<Milestone>, target: Final)
    requires 0 < n && leader < n && q < QuestCount
    requires AfterQuest(d, n, q, quests, leader, trace, log) == target
    ensures var log' := log + [QuestsResults];
            (Count(quests, true) >= WinningQuests ==>
               target == Final(LoyalServants, quests, 0, q, trace, log' + [LoyalWin])) &&
            (Count(quests, true) < WinningQuests && Count(quests, false) >= WinningQuests ==>
               target == Final(Minions, quests, 0, q, trace, log' + [EvilWin])) &&
            (Count(quests, true) < WinningQuests && Count(quests, false) < WinningQuests ==>
               FromQuest(d, n, q + 1, quests, leader, trace, log') == target)
  {
  }

  lemma {:induction false} LoopExit(d: Decisions, n: nat, quests: seq<bool>, leader: nat,
                                    trace: seq<Proposal>, log: seq<Milestone>, target: Final)
    requires 0 < n && leader < n
    requires FromQuest(d, n, QuestCount, quests, leader, trace, log) == target
    ensures target == Final(NoWinner, quests, 0, QuestCount - 1, trace, log)
  {
  }

  // ---------------------------------------------------------------------------------------------
  // What play_game promises, stated on the reference semantics.

  /** The string play_game returns for an outcome; None for the fall-through. */
  function OutcomeName(o: Outcome): (name: Option<string>)
    ensures name == None <==> o == NoWinner
  {
    match o
    case LoyalServants => Some("Loyal Servants")
    case Minions => Some("Minions")
    case NoWinner => None
  }

  /** play_game always returns one of the two winners: after five quests one side has three
      outcomes, so the function never falls through its quest loop. */
  lemma {:induction false} PlayDecides(d: Decisions, n: nat, first: nat, quests0: seq<bool>)
    requires 0 < n && first < n
    ensures Play(d, n, first, quests0).outcome != NoWinner
    ensures OutcomeName(Play(d, n, first, quests0).outcome) in {Some("Loyal Servants"), Some("Minions")}
  {
    PlayOk(d, n, first, quests0);
  }

  /** The winner of a game that ends in state f with no earlier quest outcomes: the Loyal Servants
      win exactly when three quests succeeded; the Minions win exactly when three quests failed
      or five teams in a row were rejected. The game never plays past the deciding quest: every
      earlier prefix of the outcomes is undecided, so at most five quests are played. */
  lemma {:induction false} FinalWinner(d: Decisions, n: nat, first: nat, f: Final)
    requires FinalOk(d, n, first, [], f)
    ensures (f.outcome == LoyalServants <==> Count(f.quests, true) >= WinningQuests) &&
            (f.outcome == Minions <==> Count(f.quests, false) >= WinningQuests || f.rejected == MaxRejections) &&
            (f.rejected == 0 || f.rejected == MaxRejections) &&
            |f.quests| <= QuestCount &&
            (forall i :: 0 <= i < |f.quests| ==>
               Count(f.quests[..i], true) < WinningQuests && Count(f.quests[..i], false) < WinningQuests)
  {
    assert f.quests[..0] == [];
    var m := |f.quests|;
    if f.outcome == LoyalServants {
      assert m >= WinningQuests;
      assert Undecided(f.quests[..m - 1]);
    }
  }

  /** FinalWinner for the game play_game plays from a fresh game object. */
  lemma {:induction false} FreshGameWinner(d: Decisions, n: nat, first: nat)
    requires 0 < n && first < n
    ensures var f := Play(d, n, first, []);
            (f.outcome == LoyalServants <==> Count(f.quests, true) >= WinningQuests) &&
            (f.outcome == Minions <==> Count(f.quests, false) >= WinningQuests || f.rejected == MaxRejections) &&
            (f.rejected == 0 || f.rejected == MaxRejections) &&
            |f.quests| <= QuestCount
  {
    PlayOk(d, n, first, []);
    FinalWinner(d, n, first, Play(d, n, first, []));
  }

  /** In every trace of proposals: the first is made by the first leader, every leader is in
      range, and the leader advances by one position (mod n) after every proposal, approved or
      rejected. */
  lemma {:induction false} TraceLeaders(d: Decisions, n: nat, first: nat, t: seq<Proposal>)
    requires TraceOk(d, n, first, t) && first < n
    ensures t != [] ==> t[0].leader == first
    ensures forall j :: 0 <= j < |t| ==> t[j].leader < n
    ensures forall j :: 0 < j < |t| ==> t[j].leader == (t[j - 1].leader + 1) % n
  {
    forall j | 0 <= j < |t| ensures t[j].leader < n {
      if j > 0 { assert t[j].leader == NextLeader(t[j - 1].leader, n); }
    }
  }

  /** The leaders of play_game's proposals rotate from the first leader. */
  lemma {:induction false} LeaderRotates(d: Decisions, n: nat, first: nat, quests0: seq<bool>)
    requires 0 < n && first < n
    ensures var t := Play(d, n, first, quests0).trace;
            t != [] && t[0].leader == first &&
            (forall j :: 0 <= j < |t| ==> t[j].leader < n) &&
            (forall j :: 0 < j < |t| ==> t[j].leader == (t[j - 1].leader + 1) % n)
  {
    PlayOk(d, n, first, quests0);
    TraceLeaders(d, n, first, Play(d, n, first, quests0).trace);
  }

  /** The rejection counter along a trace: 0 at the first proposal, below five at every
      proposal, reset to 0 after an approval (the quest index then moves on) and one higher after
      a rejection (the quest index stays). */
  lemma {:induction false} TraceRejections(d: Decisions, n: nat, first: nat, t: seq<Proposal>)
    requires TraceOk(d, n, first, t)
    ensures t != [] ==> t[0].quest == 0 && t[0].rejections == 0
    ensures forall j :: 0 <= j < |t| ==> t[j].rejections < MaxRejections
    ensures forall j :: 0 < j < |t| ==>
              t[j].rejections == (if t[j - 1].approved then 0 else t[j - 1].rejections + 1) &&
              t[j].quest == (if t[j - 1].approved then t[j - 1].quest + 1 else t[j - 1].quest)
  {
    forall j | 0 <= j < |t| ensures t[j].rejections < MaxRejections {
      assert ProposalOk(d, n, t[j], j);
    }
    forall j | 0 < j < |t|
      ensures t[j].rejections == (if t[j - 1].approved then 0 else t[j - 1].rejections + 1)
      ensures t[j].quest == (if t[j - 1].approved then t[j - 1].quest + 1 else t[j - 1].quest)
    {
      assert Follows(t[j - 1], t[j]);
    }
  }

  /** A game ends with five rejections exactly when its last proposal was rejected, which was then
      the fifth in a row; otherwise the counter play_game leaves behind is 0. */
  lemma {:induction false} FinalRejections(d: Decisions, n: nat, first: nat, quests0: seq<bool>, f: Final)
    requires FinalOk(d, n, first, quests0, f)
    ensures f.trace != []
    ensures f.rejected == MaxRejections <==> !Last(f.trace).approved
    ensures f.rejected == MaxRejections ==> Last(f.trace).rejections == MaxRejections - 1
    ensures f.rejected != MaxRejections ==> f.rejected == 0
  {
  }

  /** The rejection counter of play_game's proposals. */
  lemma {:induction false} RejectionCounter(d: Decisions, n: nat, first: nat, quests0: seq<bool>)
    requires 0 < n && first < n
    ensures var f := Play(d, n, first, quests0);
            var t := f.trace;
            t != [] && t[0].quest == 0 && t[0].rejections == 0 &&
            (forall j :: 0 <= j < |t| ==> t[j].rejections < MaxRejections) &&
            (forall j :: 0 < j < |t| ==>
               t[j].rejections == (if t[j - 1].approved then 0 else t[j - 1].rejections + 1) &&
               t[j].quest == (if t[j - 1].approved then t[j - 1].quest + 1 else t[j - 1].quest)) &&
            (f.rejected == MaxRejections <==> !Last(t).approved) &&
            (f.rejected == MaxRejections ==> Last(t).rejections == MaxRejections - 1) &&
            (f.rejected != MaxRejections ==> f.rejected == 0)
  {
    var f := Play(d, n, first, quests0);
    PlayOk(d, n, first, quests0);
    FinalRejections(d, n, first, quests0, f);
    TraceRejections(d, n, first, f.trace);
  }

  /** Every proposal of a trace asks its leader for a team of the size the quest table gives, is
      approved exactly when the roster's votes approve it, and an approved team's quest succeeds
      exactly when its members' contributions stay under the quest's fail threshold. */
  lemma {:induction false} TraceProposals(d: Decisions, n: nat, first: nat, t: seq<Proposal>)
    requires TraceOk(d, n, first, t)
    ensures forall j :: 0 <= j < |t| ==>
              t[j].quest < QuestCount &&
              t[j].team == d.propose(j, t[j].leader, PlayersPerQuest[t[j].quest]) &&
              (t[j].approved <==> Approved(Votes(d, n, j, t[j].team))) &&
              (t[j].succeeded <==>
                 t[j].approved && QuestSucceeds(Contributions(d, j, t[j].team), FailsRequired[t[j].quest]))
  {
    forall j | 0 <= j < |t|
      ensures t[j].quest < QuestCount
      ensures t[j] == MakeProposal(d, n, t[j].quest, t[j].rejections, t[j].leader, j)
    {
      assert ProposalOk(d, n, t[j], j);
    }
  }

  /** The proposals of play_game follow the quest table and the players' decisions. */
  lemma {:induction false} ProposalsFollowRules(d: Decisions, n: nat, first: nat, quests0: seq<bool>)
    requires 0 < n && first < n
    ensures var t := Play(d, n, first, quests0).trace;
            forall j :: 0 <= j < |t| ==>
              t[j].quest < QuestCount &&
              t[j].team == d.propose(j, t[j].leader, PlayersPerQuest[t[j].quest]) &&
              (t[j].approved <==> Approved(Votes(d, n, j, t[j].team))) &&
              (t[j].succeeded <==>
                 t[j].approved && QuestSucceeds(Contributions(d, j, t[j].team), FailsRequired[t[j].quest]))
  {
    PlayOk(d, n, first, quests0);
    TraceProposals(d, n, first, Play(d, n, first, quests0).trace);
  }

  /** The quest index of a proposal is the number of approvals before it. */
  lemma {:induction false} QuestIndexCountsApprovals(d: Decisions, n: nat, first: nat,
                                                     t: seq<Proposal>, j: nat)
    requires TraceOk(d, n, first, t) && j < |t|
    ensures |Results(t[..j])| == t[j].quest
    decreases j
  {
    if j == 0 {
      assert t[..0] == [];
    } else {
      QuestIndexCountsApprovals(d, n, first, t, j - 1);
      assert t[..j][..j - 1] == t[..j - 1];
      assert Follows(t[j - 1], t[j]);
    }
  }

  lemma {:induction false} ResultsPrefix(t: seq<Proposal>, m: nat)
    requires m <= |t|
    ensures Results(t[..m]) <= Results(t)
    decreases |t| - m
  {
    if m < |t| {
      ResultsPrefix(t, m + 1);
      assert t[..m + 1][..m] == t[..m];
    } else {
      assert t[..m] == t;
    }
  }

  /** In a trace, the approved team of quest q recorded outcome number q. */
  lemma {:induction false} TraceRecordsApprovedTeams(d: Decisions, n: nat, first: nat, t: seq<Proposal>)
    requires TraceOk(d, n, first, t)
    ensures forall j :: 0 <= j < |t| && t[j].approved ==>
              t[j].quest < |Results(t)| && Results(t)[t[j].quest] == t[j].succeeded
  {
    forall j | 0 <= j < |t| && t[j].approved
      ensures t[j].quest < |Results(t)| && Results(t)[t[j].quest] == t[j].succeeded
    {
      QuestIndexCountsApprovals(d, n, first, t, j);
      ResultsPrefix(t, j + 1);
      assert t[..j + 1][..j] == t[..j];
      assert Results(t[..j + 1]) == Results(t[..j]) + [t[j].succeeded];
    }
  }

  /** quests grows by exactly one outcome per approved team: the outcomes recorded are those of the
      approved proposals in order, and the approved team of quest q recorded outcome number q. */
  lemma {:induction false} QuestsRecordApprovedTeams(d: Decisions, n: nat, first: nat, quests0: seq<bool>)
    requires 0 < n && first < n
    ensures var f := Play(d, n, first, quests0);
            f.quests == quests0 + Results(f.trace) &&
            forall j :: 0 <= j < |f.trace| && f.trace[j].approved ==>
              |quests0| + f.trace[j].quest < |f.quests| &&
              f.quests[|quests0| + f.trace[j].quest] == f.trace[j].succeeded
  {
    var f := Play(d, n, first, quests0);
    PlayOk(d, n, first, quests0);
    TraceRecordsApprovedTeams(d, n, first, f.trace);
  }

  lemma {:induction false} ResultsWithoutApprovals(t: seq<Proposal>)
    requires forall j :: 0 <= j < |t| ==> !t[j].approved
    ensures Results(t) == []
  {
    if t != [] {
      ResultsWithoutApprovals(t[..|t| - 1]);
    }
  }

  lemma {:induction false} ResultsAllSucceeded(t: seq<Proposal>)
    requires forall j :: 0 <= j < |t| ==> t[j].approved && t[j].succeeded
    ensures |Results(t)| == |t| && forall i :: 0 <= i < |Results(t)| ==> Results(t)[i]
  {
    if t != [] {
      ResultsAllSucceeded(t[..|t| - 1]);
    }
  }

  lemma {:induction false} RejectionsCountUp(t: seq<Proposal>, j: nat)
    requires j < |t| && t[0].rejections == 0
    requires forall i :: 0 <= i < |t| ==> !t[i].approved
    requires forall i :: 0 < i < |t| ==> t[i].rejections == t[i - 1].rejections + 1
    ensures t[j].rejections == j
  {
    if j > 0 {
      RejectionsCountUp(t, j - 1);
    }
  }

  /** The decisions of a table where everybody always votes yes and every contribution succeeds. */
  function Cooperative(propose: (nat, nat, nat) -> seq<nat>): Decisions {
    Decisions(propose, (_, _, _) => true, (_, _, _) => true)
  }

  /** The decisions of a table where everybody always votes no. */
  function Rejecting(propose: (nat, nat, nat) -> seq<nat>, conduct: (nat, nat, seq<nat>) -> bool): Decisions {
    Decisions(propose, (_, _, _) => false, conduct)
  }

  /** Under unanimous approval and success, every proposal of a trace is approved and its quest
      succeeds. */
  lemma {:induction false} CooperativeTrace(propose: (nat, nat, nat) -> seq<nat>, n: nat, first: nat,
                                            t: seq<Proposal>)
    requires TraceOk(Cooperative(propose), n, first, t)
    ensures forall j :: 0 <= j < |t| ==> t[j].approved && t[j].succeeded
  {
    var d := Cooperative(propose);
    TraceProposals(d, n, first, t);
    forall j | 0 <= j < |t| ensures t[j].approved && t[j].succeeded {
      CountUniform(Votes(d, n, j, t[j].team), true);
      CountUniform(Contributions(d, j, t[j].team), true);
      assert FailsRequired[t[j].quest] >= 1;
    }
  }

  /** Outcomes that are all successes, decided at the last one and not before: exactly three. */
  lemma {:induction false} SuccessesDecideAtThree(q: seq<bool>)
    requires q != [] && forall i :: 0 <= i < |q| ==> q[i]
    requires Count(q, true) >= WinningQuests && Count(q[..|q| - 1], true) < WinningQuests
    ensures q == [true, true, true]
  {
    CountUniform(q, true);
    CountUniformPrefix(q, true, |q| - 1);
    assert |q| == 3 && q[0] && q[1] && q[2];
  }

  /** A cooperative game: the first three quests are approved on their first proposal and succeed,
      and the Loyal Servants win with exactly three recorded outcomes. */
  lemma {:induction false} CooperativeOutcome(propose: (nat, nat, nat) -> seq<nat>, n: nat, first: nat,
                                              f: Final)
    requires FinalOk(Cooperative(propose), n, first, [], f)
    ensures f.outcome == LoyalServants && f.quests == [true, true, true] && |f.trace| == 3
  {
    var t := f.trace;
    var q := f.quests;
    CooperativeTrace(propose, n, first, t);
    ResultsAllSucceeded(t);
    assert q == Results(t);
    CountUniform(q, true);
    assert Last(t).approved;
    assert f.outcome == LoyalServants;
    assert Undecided(q[..|q| - 1]);
    SuccessesDecideAtThree(q);
  }

  /** The scenario in which every player always votes yes and every contribution succeeds: the
      Loyal Servants win after three quests; the last two quests are never played. */
  lemma {:induction false} EveryoneCooperates(propose: (nat, nat, nat) -> seq<nat>, n: nat, first: nat)
    requires 0 < n && first < n
    ensures var f := Play(Cooperative(propose), n, first, []);
            f.outcome == LoyalServants && f.quests == [true, true, true] && |f.trace| == 3
  {
    PlayOk(Cooperative(propose), n, first, []);
    CooperativeOutcome(propose, n, first, Play(Cooperative(propose), n, first, []));
  }

  /** A game where everybody votes no: five teams are rejected on the first quest and the Minions
      win with no quest outcome recorded. */
  lemma {:induction false} RejectingOutcome(propose: (nat, nat, nat) -> seq<nat>,
                                            conduct: (nat, nat, seq<nat>) -> bool, n: nat, first: nat,
                                            f: Final)
    requires FinalOk(Rejecting(propose, conduct), n, first, [], f)
    ensures f.outcome == Minions && f.quests == [] && f.rejected == MaxRejections &&
            |f.trace| == MaxRejections && forall j :: 0 <= j < |f.trace| ==> f.trace[j].quest == 0
  {
    var d := Rejecting(propose, conduct);
    var t := f.trace;
    TraceProposals(d, n, first, t);
    TraceRejections(d, n, first, t);
    forall j | 0 <= j < |t| ensures !t[j].approved {
      CountUniform(Votes(d, n, j, t[j].team), false);
    }
    ResultsWithoutApprovals(t);
    FinalRejections(d, n, first, [], f);
    RejectionsCountUp(t, |t| - 1);
    forall j | 0 <= j < |t| ensures t[j].quest == 0 {
      QuestIndexCountsApprovals(d, n, first, t, j);
      ResultsWithoutApprovals(t[..j]);
    }
  }

  /** The scenario in which every player always votes no. */
  lemma {:induction false} EveryoneRejects(propose: (nat, nat, nat) -> seq<nat>, conduct: (nat, nat, seq<nat>) -> bool,
                                           n: nat, first: nat)
    requires 0 < n && first < n
    ensures var f := Play(Rejecting(propose, conduct), n, first, []);
            f.outcome == Minions && f.quests == [] && f.rejected == MaxRejections &&
            |f.trace| == MaxRejections && forall j :: 0 <= j < |f.trace| ==> f.trace[j].quest == 0
  {
    PlayOk(Rejecting(propose, conduct), n, first, []);
    RejectingOutcome(propose, conduct, n, first, Play(Rejecting(propose, conduct), n, first, []));
  }

  // Arithmetic for the closed form of the leader rotation.

  lemma {:induction false} MulAtLeast(a: nat, n: nat)
    requires 1 <= a
    ensures a * n >= n
  {
    if a > 1 {
      MulAtLeast(a - 1, n);
      assert a * n == (a - 1) * n + n;
    }
  }

  lemma {:induction false} DivModUnique(x: nat, n: nat, m: nat, r: nat)
    requires 0 < n && r < n && x == m * n + r
    ensures x % n == r
  {
    var m', r' := x / n, x % n;
    assert x == m' * n + r';
    if m > m' {
      assert m * n == (m - m') * n + m' * n;
      MulAtLeast(m - m', n);
    } else if m < m' {
      assert m' * n == (m' - m) * n + m * n;
      MulAtLeast(m' - m, n);
    }
  }

  lemma {:induction false} ModSucc(a: nat, n: nat)
    requires 0 < n
    ensures (a % n + 1) % n == (a + 1) % n
  {
    var m, r := a / n, a % n;
    assert a == m * n + r;
    if r + 1 < n {
      DivModUnique(a + 1, n, m, r + 1);
      DivModUnique(r + 1, n, 0, r + 1);
    } else {
      assert (m + 1) * n == m * n + n;
      DivModUnique(a + 1, n, m + 1, 0);
      DivModUnique(r + 1, n, 1, 0);
    }
  }

  lemma {:induction false} LeaderAt(t: seq<Proposal>, n: nat, first: nat, j: nat)
    requires 0 < n && first < n && j < |t| && t[0].leader == first
    requires forall i :: 0 < i < |t| ==> t[i].leader == (t[i - 1].leader + 1) % n
    ensures t[j].leader == (first + j) % n
  {
    if j == 0 {
      DivModUnique(first, n, 0, first);
    } else {
      LeaderAt(t, n, first, j - 1);
      var a: nat := first + (j - 1);
      ModSucc(a, n);
      assert t[j].leader == (a % n + 1) % n;
      assert a + 1 == first + j;
    }
  }

  /** Proposal number j is made by the player at position first + j (mod n) of the roster. */
  lemma {:induction false} LeaderOfProposal(d: Decisions, n: nat, first: nat, quests0: seq<bool>)
    requires 0 < n && first < n
    ensures var t := Play(d, n, first, quests0).trace;
            forall j :: 0 <= j < |t| ==> t[j].leader == (first + j) % n
  {
    PlayOk(d, n, first, quests0);
    var t := Play(d, n, first, quests0).trace;
    TraceLeaders(d, n, first, t);
    forall j | 0 <= j < |t| ensures t[j].leader == (first + j) % n {
      LeaderAt(t, n, first, j);
    }
  }
}
