/** The entity-id renaming of `GetIDClientRpc`: player entities are named after the
    session that owns them. */
module PlayerIds {

  function Digit(d: nat): char
    requires d < 10
  {
    "0123456789"[d]
  }

  predicate IsDigit(c: char)
  {
    '0' <= c <= '9'
  }

  /** `ulong.ToString()`: decimal digits, most significant first, no leading zeros. */
  function Decimal(n: nat): (r: string)
    ensures |r| >= 1
    ensures forall i :: 0 <= i < |r| ==> IsDigit(r[i])
    ensures n >= 10 ==> |r| >= 2
  {
    if n < 10 then [Digit(n)] else Decimal(n / 10) + [Digit(n % 10)]
  }

  /** Different numbers have different decimal forms. */
  lemma {:induction false} DecimalInjective(a: nat, b: nat)
    requires Decimal(a) == Decimal(b)
    ensures a == b
  {
    var da, db := Decimal(a), Decimal(b);
    if a < 10 && b < 10 {
      assert Digit(a) == da[0] == Digit(b);
    } else if a >= 10 && b >= 10 {
      assert Digit(a % 10) == da[|da| - 1] == Digit(b % 10);
      assert Decimal(a / 10) == da[..|da| - 1] == Decimal(b / 10);
      DecimalInjective(a / 10, b / 10);
    } else {
      assert false;
    }
  }

  const PlayerPrefix: string := "player-"

  /** The name a player entity owned by session `owner` gets. */
  function PlayerName(owner: nat): string
  {
    PlayerPrefix + Decimal(owner)
  }

  /** `idToUse` after `GetIDClientRpc(id)`. */
  function ResolvedId(id: string, isPlayer: bool, owner: nat): (r: string)
    ensures (id == "player" || isPlayer) ==> r == PlayerName(owner)
    ensures !(id == "player" || isPlayer) ==> r == id
  {
    if id == "player" || isPlayer then PlayerName(owner) else id
  }

  /** The bare placeholder "player" never survives the renaming. */
  lemma ResolvedIdNotPlaceholder(id: string, isPlayer: bool, owner: nat)
    ensures ResolvedId(id, isPlayer, owner) != "player"
  {
    if id == "player" || isPlayer {
      assert |PlayerName(owner)| > |"player"|;
    }
  }

  /** Renaming an already renamed id changes nothing. */
  lemma ResolvedIdIdempotent(id: string, isPlayer: bool, owner: nat)
    ensures ResolvedId(ResolvedId(id, isPlayer, owner), isPlayer, owner) == ResolvedId(id, isPlayer, owner)
  {
    ResolvedIdNotPlaceholder(id, isPlayer, owner);
  }

  /** Player entities of different sessions get different names. */
  lemma PlayerNamesDistinct(a: nat, b: nat)
    requires a != b
    ensures PlayerName(a) != PlayerName(b)
  {
    if PlayerName(a) == PlayerName(b) {
      assert Decimal(a) == PlayerName(a)[|PlayerPrefix|..] == PlayerName(b)[|PlayerPrefix|..] == Decimal(b);
      DecimalInjective(a, b);
    }
  }
}
