/** The to-hit roll of one weapon (`hit`). */
module HitRoll {
  import opened Entities

  /** The number of to-hit dice a weapon rolls: `for _ in 0..attacks` does
      nothing when `attacks <= 0`. */
  function DiceCount(attacks: i32): nat {
    if attacks > 0 then attacks as nat else 0
  }

  /** The successful rolls among the `n` dice from roll number `pos`, in
      the order they were rolled. */
  function Successes(rolls: Rolls, pos: nat, n: nat, skill: i32): (r: seq<i32>)
    ensures |r| <= n
    ensures forall k | 0 <= k < |r| :: r[k] >= skill
    ensures r != [] <==> exists i :: pos <= i < pos + n && rolls(i) >= skill
    decreases n
  {
    if n == 0 then []
    else
      var roll := rolls(pos + n - 1);
      Successes(rolls, pos, n - 1, skill) + (if roll >= skill then [roll as i32] else [])
  }

  /** Rolls one die per attack of `weapon` from roll number `pos` on,
      records every roll that reaches the weapon's skill and reports whether
      any did; `next` is the first roll not consumed. */
  method Hit(weapon: Weapon, rolls: Rolls, pos: nat) returns (hits: bool, results: seq<i32>, next: nat)
    ensures next == pos + DiceCount(weapon.attacks)
    ensures results == Successes(rolls, pos, DiceCount(weapon.attacks), weapon.skill)
    ensures hits <==> exists i :: pos <= i < next && rolls(i) >= weapon.skill
    ensures weapon.attacks <= 0 ==> !hits && results == []
  {
    results := [];
    hits := false;
    next := pos;
    for k := 0 to DiceCount(weapon.attacks)
      invariant next == pos + k
      invariant results == Successes(rolls, pos, k, weapon.skill)
      invariant hits <==> results != []
    {
      var roll := rolls(next);
      next := next + 1;
      if roll >= weapon.skill {
        results := results + [roll];
        hits := true;
      }
    }
  }
}
