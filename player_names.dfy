/** The names create_players gives in avalon.py and src/avalon.py: player i (from 0) is called
    "Player " followed by i + 1 written in decimal, as an f-string formats an int. */
module PlayerNames {

  function DigitChar(d: nat): (c: char)
    requires d < 10
    ensures '0' <= c <= '9' && c as int - '0' as int == d
  {
    (d + '0' as int) as char
  }

  /** str(n): the decimal digits of n, most significant first, with no leading zero. */
  function NatToString(n: nat): (s: string)
    ensures 1 <= |s|
    ensures n < 10 <==> |s| == 1
    ensures s[|s| - 1] == DigitChar(n % 10)
    ensures |s| > 1 ==> s[0] != '0'
    ensures forall i :: 0 <= i < |s| ==> '0' <= s[i] <= '9'
    decreases n
  {
    if n < 10 then [DigitChar(n)] else NatToString(n / 10) + [DigitChar(n % 10)]
  }

  /** The value of a string of decimal digits. */
  function DigitsValue(s: string): nat
    requires forall i :: 0 <= i < |s| ==> '0' <= s[i] <= '9'
  {
    if s == [] then 0 else 10 * DigitsValue(s[..|s| - 1]) + (s[|s| - 1] as int - '0' as int)
  }

  /** Reading back the digits gives the number: str is a faithful decimal encoding. */
  lemma {:induction false} NatToStringValue(n: nat)
    ensures DigitsValue(NatToString(n)) == n
    decreases n
  {
    var s := NatToString(n);
    if n >= 10 {
      NatToStringValue(n / 10);
      assert s[..|s| - 1] == NatToString(n / 10);
    }
  }

  /** Different numbers have different decimal strings. */
  lemma {:induction false} NatToStringInjective(a: nat, b: nat)
    requires NatToString(a) == NatToString(b)
    ensures a == b
  {
    NatToStringValue(a);
    NatToStringValue(b);
  }

  const PlayerPrefix: string := "Player "

  /** The name of player i: f"Player {i+1}". */
  function PlayerName(i: nat): (name: string)
    ensures |PlayerPrefix| < |name| && name[..|PlayerPrefix|] == PlayerPrefix
    ensures forall k :: |PlayerPrefix| <= k < |name| ==> '0' <= name[k] <= '9'
    ensures DigitsValue(name[|PlayerPrefix|..]) == i + 1
  {
    NatToStringValue(i + 1);
    assert (PlayerPrefix + NatToString(i + 1))[|PlayerPrefix|..] == NatToString(i + 1);
    PlayerPrefix + NatToString(i + 1)
  }

  /** No two players are given the same name. */
  lemma {:induction false} PlayerNamesDistinct(i: nat, j: nat)
    requires i != j
    ensures PlayerName(i) != PlayerName(j)
  {
  }
}
