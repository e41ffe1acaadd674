/** Role names, the allegiance rule shared by every BasePlayer copy, and the deck of seven role
    cards that assign_roles shuffles and deals in roster order. */
module Roles {

  const Merlin: string := "Merlin"
  const LoyalServant: string := "Loyal Servant"
  const Minion: string := "Minion"

  /** BasePlayer.assign_role: a role is loyal when it is one of the two loyal role names
      (membership in a two-element list); every other name, "Minion" included, is evil. */
  function IsLoyalRole(role: string): (loyal: bool)
    ensures loyal <==> role == Merlin || role == LoyalServant
  {
    role in [Merlin, LoyalServant]
  }

  lemma {:induction false} MinionIsEvil()
    ensures !IsLoyalRole(Minion) && IsLoyalRole(LoyalServant) && IsLoyalRole(Merlin)
  {
    assert Minion != Merlin && Minion != LoyalServant by {
      assert Minion[0] == 'M' && Merlin[1] == 'e' && Minion[1] == 'i';
      assert LoyalServant[0] == 'L';
    }
  }

  /** The unshuffled deck: four Loyal Servant cards followed by three Minion cards. */
  function Deck(): seq<string> {
    [LoyalServant, LoyalServant, LoyalServant, LoyalServant, Minion, Minion, Minion]
  }

  /** What random.shuffle may produce from the deck: any permutation of it. */
  predicate IsShuffledDeck(deck: seq<string>) {
    multiset(deck) == multiset(Deck())
  }

  /** Number of loyal roles in a sequence of dealt roles. */
  function CountLoyal(roles: seq<string>): (c: nat)
    ensures c <= |roles|
  {
    if roles == [] then 0
    else CountLoyal(roles[..|roles| - 1]) + (if IsLoyalRole(roles[|roles| - 1]) then 1 else 0)
  }

  /** The evil roster assign_roles builds while dealing roles[k] to players[k]: the players dealt
      an evil role, in roster order. */
  function EvilRoster<T>(players: seq<T>, roles: seq<string>): seq<T>
    requires |roles| <= |players|
  {
    if roles == [] then []
    else
      var last := |roles| - 1;
      EvilRoster(players, roles[..last]) + (if IsLoyalRole(roles[last]) then [] else [players[last]])
  }

  /** Every dealt role is either loyal or puts its player on the evil roster. */
  lemma {:induction false} EvilRosterSize<T>(players: seq<T>, roles: seq<string>)
    requires |roles| <= |players|
    ensures |EvilRoster(players, roles)| + CountLoyal(roles) == |roles|
  {
    if roles != [] {
      EvilRosterSize(players, roles[..|roles| - 1]);
    }
  }

  /** Dealing role i to player i extends the evil roster by that player exactly when the role is
      evil. */
  lemma {:induction false} EvilRosterStep<T>(players: seq<T>, roles: seq<string>, i: nat)
    requires i < |roles| && i < |players|
    ensures EvilRoster(players, roles[..i + 1]) ==
              EvilRoster(players, roles[..i]) + (if IsLoyalRole(roles[i]) then [] else [players[i]])
  {
    assert roles[..i + 1][..i] == roles[..i];
  }

  /** For distinct players, the evil roster holds exactly the players dealt an evil role, and
      nobody who was not dealt a card. */
  lemma {:induction false} EvilRosterMembers<T>(players: seq<T>, roles: seq<string>)
    requires forall i, j :: 0 <= i < j < |players| ==> players[i] != players[j]
    requires |roles| <= |players|
    ensures var evil := EvilRoster(players, roles);
            (forall k :: 0 <= k < |roles| ==> (players[k] in evil <==> !IsLoyalRole(roles[k]))) &&
            (forall p :: p in evil ==> p in players[..|roles|])
  {
    if roles != [] {
      var last := |roles| - 1;
      var init := roles[..last];
      EvilRosterMembers(players, init);
      var before := EvilRoster(players, init);
      var evil := EvilRoster(players, roles);
      var added := if IsLoyalRole(roles[last]) then [] else [players[last]];
      assert evil == before + added;
      assert players[..|roles|] == players[..last] + [players[last]];
      forall k | 0 <= k < |roles| ensures players[k] in evil <==> !IsLoyalRole(roles[k]) {
        if k < last {
          assert init[k] == roles[k];
          assert players[k] !in added;
        } else {
          assert players[last] !in players[..last];
        }
      }
    }
  }

  lemma {:induction false} CountLoyalMultiset(roles: seq<string>)
    ensures CountLoyal(roles) == multiset(roles)[Merlin] + multiset(roles)[LoyalServant]
  {
    if roles != [] {
      var init := roles[..|roles| - 1];
      CountLoyalMultiset(init);
      assert roles == init + [roles[|roles| - 1]];
      MinionIsEvil();
      assert Merlin != LoyalServant by { assert Merlin[0] != LoyalServant[0]; }
    }
  }

  /** Dealing a shuffled deck: seven cards, four of them loyal and three evil. */
  lemma {:induction false} DealtDeck(deck: seq<string>)
    requires IsShuffledDeck(deck)
    ensures |deck| == 7
    ensures CountLoyal(deck) == 4
  {
    assert |multiset(deck)| == |multiset(Deck())|;
    CountLoyalMultiset(deck);
    MinionIsEvil();
    assert Merlin != LoyalServant by { assert Merlin[0] != LoyalServant[0]; }
    assert multiset(Deck())[Merlin] == 0;
    assert multiset(Deck())[LoyalServant] == 4;
  }
}
