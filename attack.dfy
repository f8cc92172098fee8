/** The attack resolver (`attack`): every weapon of every model of the
    attacking squad goes through the range gate, the to-hit roll, the
    to-wound roll and the saving throw, and each failed save adds the
    weapon's damage to the damage list. */
module AttackResolver {
  import opened Entities
  import opened HitRoll

  /** Rust's `/ 2` on an `i32`, which truncates toward zero. */
  function Half(x: int): (r: int)
    ensures x >= 0 ==> 0 <= 2 * r <= x < 2 * r + 2
    ensures x < 0 ==> 2 * r - 2 < x <= 2 * r <= 0
  {
    if x >= 0 then x / 2 else -((-x) / 2)
  }

  /** The to-wound threshold of a weapon of the given strength against a
      target of the given toughness: the first row of the rule table that
      applies. `2 * strength` is the program's `str * 2`, which the caller
      checks for overflow. */
  function WoundThreshold(strength: i32, toughness: i32): (r: int)
    ensures 2 <= r <= 6
  {
    if 2 * strength as int <= toughness as int then 6
    else if strength < toughness then 5
    else if strength == toughness then 4
    else if Half(strength as int) > toughness as int then 2
    else 3
  }

  /** A stronger weapon never needs a higher to-wound roll. */
  lemma WoundThresholdFallsWithStrength(weaker: i32, stronger: i32, toughness: i32)
    requires weaker <= stronger
    ensures WoundThreshold(stronger, toughness) <= WoundThreshold(weaker, toughness)
  {
  }

  /** A tougher target never needs a lower to-wound roll. */
  lemma WoundThresholdRisesWithToughness(strength: i32, softer: i32, tougher: i32)
    requires softer <= tougher
    ensures WoundThreshold(strength, softer) <= WoundThreshold(strength, tougher)
  {
  }

  /** The rows of the rule table on the profiles the rules are written for. */
  lemma WoundThresholdTable()
    ensures WoundThreshold(4, 8) == 6 && WoundThreshold(3, 5) == 5
    ensures WoundThreshold(3, 3) == 4 && WoundThreshold(4, 4) == 4
    ensures WoundThreshold(8, 3) == 2 && WoundThreshold(5, 4) == 3
    ensures WoundThreshold(6, 3) == 3 && WoundThreshold(10, 4) == 2
  {
  }

  /** The saving throw against `weapon`: the lead model's save worsened by
      the weapon's penetration, or its invulnerable save when that is lower. */
  function SaveThreshold(lead: Model, weapon: Weapon): (r: int)
    requires IsI32(lead.save as int + weapon.penetration as int)
    ensures r <= lead.save as int + weapon.penetration as int
    ensures lead.invulnerable.Some? ==> r <= lead.invulnerable.value as int
    ensures r == lead.save as int + weapon.penetration as int
         || (lead.invulnerable.Some? && r == lead.invulnerable.value as int)
  {
    var modified := lead.save as int + weapon.penetration as int;
    var invulnerable := match lead.invulnerable
      case Some(v) => v as int
      case None => I32_MAX;
    if invulnerable < modified then invulnerable else modified
  }

  /** How many of the `n` dice from roll number `pos` reach `threshold`. */
  function CountAtLeast(rolls: Rolls, pos: nat, n: nat, threshold: int): (c: nat)
    ensures c <= n
    ensures n == 1 ==> (c == 1 <==> rolls(pos) as int >= threshold)
    decreases n
  {
    if n == 0 then 0
    else CountAtLeast(rolls, pos, n - 1, threshold) + (if rolls(pos + n - 1) as int >= threshold then 1 else 0)
  }

  /** How many of the `n` dice from roll number `pos` fall short of `threshold`. */
  function CountBelow(rolls: Rolls, pos: nat, n: nat, threshold: int): (c: nat)
    ensures c <= n
    ensures n == 1 ==> (c == 1 <==> (rolls(pos) as int) < threshold)
    decreases n
  {
    if n == 0 then 0
    else CountBelow(rolls, pos, n - 1, threshold) + (if (rolls(pos + n - 1) as int) < threshold then 1 else 0)
  }

  /** `k` copies of `x`. */
  function Repeat(x: i32, k: nat): (r: seq<i32>)
    ensures |r| == k && forall i | 0 <= i < k :: r[i] == x
  {
    seq(k, _ => x)
  }

  /** The running state of a resolution: the damage list so far, the next
      die to roll and the hit, wound and failed-save counters it reports. */
  datatype Volley = Volley(damage: seq<i32>, next: nat, hits: nat, wounds: nat, failedSaves: nat)

  /** The volley a resolution starts from. */
  function Fresh(pos: nat): Volley {
    Volley([], pos, 0, 0, 0)
  }

  /** The range gate: a ranged weapon fires only when its range reaches the
      distance; a weapon without a range always fires. */
  predicate InRange(range: Option<i32>, distance: i32) {
    match range
    case Some(r) => r >= distance
    case None => true
  }

  /** Whether the to-hit dice of `weapon` from roll number `pos` score a hit. */
  predicate Hits(weapon: Weapon, rolls: Rolls, pos: nat) {
    exists i :: pos <= i < pos + DiceCount(weapon.attacks) && rolls(i) >= weapon.skill
  }

  /** The checked arithmetic of resolving `weapon` against `target` does
      not overflow. */
  predicate Safe(weapon: Weapon, target: seq<Model>) {
    IsI32(2 * weapon.strength as int)
    && (target != [] ==> IsI32(target[0].save as int + weapon.penetration as int))
  }

  /** No weapon of `models` overflows against `target`. */
  predicate SafeAgainst(models: seq<Model>, target: seq<Model>) {
    forall i, k | 0 <= i < |models| && 0 <= k < |models[i].weapons| :: Safe(models[i].weapons[k], target)
  }

  /** No weapon of `models` passes the range gate at `distance`. */
  predicate OutOfRange(models: seq<Model>, distance: i32) {
    forall i, k | 0 <= i < |models| && 0 <= k < |models[i].weapons| :: !InRange(models[i].weapons[k].range, distance)
  }

  /** `after` continues `before`: the counters only grow, at most
      `maxHits` hits are added, wounds never outnumber hits nor failed saves
      wounds, and one damage entry, drawn from `values`, is appended per
      failed save after the entries already there. */
  predicate Tallied(before: Volley, after: Volley, maxHits: nat, values: set<i32>) {
    before.next <= after.next
    && before.hits <= after.hits <= before.hits + maxHits
    && before.wounds <= after.wounds && after.wounds - before.wounds <= after.hits - before.hits
    && before.failedSaves <= after.failedSaves
    && after.failedSaves - before.failedSaves <= after.wounds - before.wounds
    && |after.damage| == |before.damage| + (after.failedSaves - before.failedSaves)
    && after.damage[..|before.damage|] == before.damage
    && forall k | |before.damage| <= k < |after.damage| :: after.damage[k] in values
  }

  lemma TalliedTrans(a: Volley, b: Volley, c: Volley, m1: nat, m2: nat, s1: set<i32>, s2: set<i32>)
    requires Tallied(a, b, m1, s1) && Tallied(b, c, m2, s2)
    ensures Tallied(a, c, m1 + m2, s1 + s2)
  {
  }

  /** One pass of the inner loop: `weapon` fires at `target` from
      `distance`, continuing the volley `acc`. The hit consumes one die per
      attack, at most one hit is counted per weapon (`hit` returns a single
      bool), and each hit rolls one wound die and each wound one save die
      against the target's lead model. */
  function StrikeWeapon(weapon: Weapon, target: seq<Model>, distance: i32, rolls: Rolls, acc: Volley): (r: Outcome<Volley>)
    ensures !InRange(weapon.range, distance) ==> r == Ok(acc)
    ensures r.Ok? ==> Tallied(acc, r.value, 1, {weapon.damage})
    ensures InRange(weapon.range, distance) && r.Ok? ==>
      r.value.next == acc.next + DiceCount(weapon.attacks) + (r.value.hits - acc.hits) + (r.value.wounds - acc.wounds)
      && (r.value.hits > acc.hits <==> Hits(weapon, rolls, acc.next))
    ensures r.Panicked? ==> InRange(weapon.range, distance) && Hits(weapon, rolls, acc.next)
    ensures r.Panicked? ==> target == [] || !Safe(weapon, target)
    ensures r == Panicked(IndexOutOfBounds) ==> target == []
    ensures target != [] && Safe(weapon, target) ==> r.Ok?
  {
    if !InRange(weapon.range, distance) then Ok(acc)
    else
      var n := DiceCount(weapon.attacks);
      var hitCount: nat := if Successes(rolls, acc.next, n, weapon.skill) != [] then 1 else 0;
      var afterHit := acc.next + n;
      if hitCount == 0 then Ok(acc.(next := afterHit))
      else if !IsI32(2 * weapon.strength as int) then Panicked(Overflow)
      else if target == [] then Panicked(IndexOutOfBounds)
      else
        var woundCount := CountAtLeast(rolls, afterHit, hitCount, WoundThreshold(weapon.strength, target[0].toughness));
        var afterWound := afterHit + hitCount;
        if woundCount == 0 then Ok(acc.(next := afterWound, hits := acc.hits + hitCount))
        else if !IsI32(target[0].save as int + weapon.penetration as int) then Panicked(Overflow)
        else
          var failed := CountBelow(rolls, afterWound, woundCount, SaveThreshold(target[0], weapon));
          Ok(Volley(acc.damage + Repeat(weapon.damage, failed), afterWound + woundCount,
                    acc.hits + hitCount, acc.wounds + woundCount, acc.failedSaves + failed))
  }

  /** The dice a weapon in range rolls: after its to-hit dice, a hit rolls
      one wound die, which wounds iff it reaches the wound threshold, and a
      wound rolls one save die, which fails iff it is below the save
      threshold. */
  lemma StrikeWeaponRolls(weapon: Weapon, target: seq<Model>, distance: i32, rolls: Rolls, acc: Volley)
    requires InRange(weapon.range, distance) && target != [] && Safe(weapon, target)
    requires Hits(weapon, rolls, acc.next)
    ensures var r := StrikeWeapon(weapon, target, distance, rolls, acc);
      var woundRoll := acc.next + DiceCount(weapon.attacks);
      r.Ok? && r.value.hits == acc.hits + 1
      && (r.value.wounds == acc.wounds + 1 <==> rolls(woundRoll) as int >= WoundThreshold(weapon.strength, target[0].toughness))
      && (r.value.failedSaves == acc.failedSaves + 1 <==>
            r.value.wounds == acc.wounds + 1 && (rolls(woundRoll + 1) as int) < SaveThreshold(target[0], weapon))
  {
  }

  /** The inner loop over the weapons of one model. */
  function StrikeWeapons(weapons: seq<Weapon>, target: seq<Model>, distance: i32, rolls: Rolls, acc: Volley): (r: Outcome<Volley>)
    ensures r.Ok? ==> Tallied(acc, r.value, |weapons|, Damages(weapons))
    ensures (forall k | 0 <= k < |weapons| :: !InRange(weapons[k].range, distance)) ==> r == Ok(acc)
    ensures target != [] && (forall k | 0 <= k < |weapons| :: Safe(weapons[k], target)) ==> r.Ok?
    ensures r == Panicked(IndexOutOfBounds) ==> target == []
    decreases |weapons|
  {
    if weapons == [] then Ok(acc)
    else
      match StrikeWeapon(weapons[0], target, distance, rolls, acc)
      case Panicked(why) => Panicked(why)
      case Ok(v) =>
        var r := StrikeWeapons(weapons[1..], target, distance, rolls, v);
        assert r.Ok? ==> Tallied(acc, r.value, |weapons|, Damages(weapons)) by {
          if r.Ok? {
            TalliedTrans(acc, v, r.value, 1, |weapons| - 1, {weapons[0].damage}, Damages(weapons[1..]));
          }
        }
        r
  }

  /** The outer loop over the models of the attacking squad. */
  function StrikeModels(models: seq<Model>, target: seq<Model>, distance: i32, rolls: Rolls, acc: Volley): (r: Outcome<Volley>)
    ensures r.Ok? ==> Tallied(acc, r.value, WeaponCount(models), SquadDamages(models))
    ensures OutOfRange(models, distance) ==> r == Ok(acc)
    ensures target != [] && SafeAgainst(models, target) ==> r.Ok?
    ensures r == Panicked(IndexOutOfBounds) ==> target == []
    decreases |models|
  {
    if models == [] then Ok(acc)
    else
      assert OutOfRange(models, distance) ==> forall k | 0 <= k < |models[0].weapons| :: !InRange(models[0].weapons[k].range, distance);
      assert SafeAgainst(models, target) ==> forall k | 0 <= k < |models[0].weapons| :: Safe(models[0].weapons[k], target);
      assert OutOfRange(models, distance) ==> OutOfRange(models[1..], distance) by {
        if OutOfRange(models, distance) {
          forall i, k | 0 <= i < |models[1..]| && 0 <= k < |models[1..][i].weapons|
            ensures !InRange(models[1..][i].weapons[k].range, distance)
          {
            assert models[1..][i] == models[i + 1];
          }
        }
      }
      assert SafeAgainst(models, target) ==> SafeAgainst(models[1..], target) by {
        if SafeAgainst(models, target) {
          forall i, k | 0 <= i < |models[1..]| && 0 <= k < |models[1..][i].weapons|
            ensures Safe(models[1..][i].weapons[k], target)
          {
            assert models[1..][i] == models[i + 1];
          }
        }
      }
      match StrikeWeapons(models[0].weapons, target, distance, rolls, acc)
      case Panicked(why) => Panicked(why)
      case Ok(v) =>
        var r := StrikeModels(models[1..], target, distance, rolls, v);
        assert r.Ok? ==> Tallied(acc, r.value, WeaponCount(models), SquadDamages(models)) by {
          if r.Ok? {
            TalliedTrans(acc, v, r.value, |models[0].weapons|, WeaponCount(models[1..]),
                         Damages(models[0].weapons), SquadDamages(models[1..]));
          }
        }
        r
  }

  /** The inner loop over `w1 + w2` is the loop over `w1` followed by the
      loop over `w2`: the entries of earlier weapons come first. */
  lemma {:induction false} StrikeWeaponsAppend(w1: seq<Weapon>, w2: seq<Weapon>, target: seq<Model>, distance: i32, rolls: Rolls, acc: Volley)
    ensures StrikeWeapons(w1 + w2, target, distance, rolls, acc) ==
      match StrikeWeapons(w1, target, distance, rolls, acc)
      case Panicked(why) => Panicked(why)
      case Ok(v) => StrikeWeapons(w2, target, distance, rolls, v)
    decreases |w1|
  {
    if w1 == [] {
      assert w1 + w2 == w2;
    } else {
      assert (w1 + w2)[0] == w1[0];
      assert (w1 + w2)[1..] == w1[1..] + w2;
      match StrikeWeapon(w1[0], target, distance, rolls, acc)
      case Panicked(_) =>
      case Ok(v) => StrikeWeaponsAppend(w1[1..], w2, target, distance, rolls, v);
    }
  }

  /** The outer loop over `m1 + m2` is the loop over `m1` followed by the
      loop over `m2`: the entries of earlier models come first. */
  lemma {:induction false} StrikeModelsAppend(m1: seq<Model>, m2: seq<Model>, target: seq<Model>, distance: i32, rolls: Rolls, acc: Volley)
    ensures StrikeModels(m1 + m2, target, distance, rolls, acc) ==
      match StrikeModels(m1, target, distance, rolls, acc)
      case Panicked(why) => Panicked(why)
      case Ok(v) => StrikeModels(m2, target, distance, rolls, v)
    decreases |m1|
  {
    if m1 == [] {
      assert m1 + m2 == m2;
    } else {
      assert (m1 + m2)[0] == m1[0];
      assert (m1 + m2)[1..] == m1[1..] + m2;
      match StrikeWeapons(m1[0].weapons, target, distance, rolls, acc)
      case Panicked(_) =>
      case Ok(v) => StrikeModelsAppend(m1[1..], m2, target, distance, rolls, v);
    }
  }

  /** `attack(squad, target, distance)` on the dice from roll number `pos`:
      the damage list, in model order, then weapon order, one entry per
      failed save, together with the counters it reports and the next die. */
  function Resolve(squad: Squad, target: Squad, distance: i32, rolls: Rolls, pos: nat): (r: Outcome<Volley>)
    ensures r.Ok? ==>
      var v := r.value;
      v.next >= pos
      && |v.damage| == v.failedSaves <= v.wounds <= v.hits <= WeaponCount(squad.models)
      && forall k | 0 <= k < |v.damage| :: v.damage[k] in SquadDamages(squad.models)
    ensures OutOfRange(squad.models, distance) ==> r == Ok(Fresh(pos))
    ensures target.models != [] && SafeAgainst(squad.models, target.models) ==> r.Ok?
    ensures r == Panicked(IndexOutOfBounds) ==> target.models == []
  {
    StrikeModels(squad.models, target.models, distance, rolls, Fresh(pos))
  }

  /** The damage list of `attack` follows the squad's model order: when
      the squad is `m1 + m2`, the list begins with exactly the entries the
      models of `m1` produce, and every later entry is the damage of a
      weapon of `m2`. */
  lemma ResolveInModelOrder(m1: seq<Model>, m2: seq<Model>, target: Squad, distance: i32, rolls: Rolls, pos: nat)
    requires Resolve(Squad(m1 + m2), target, distance, rolls, pos).Ok?
    ensures var r := Resolve(Squad(m1 + m2), target, distance, rolls, pos).value;
      var front := StrikeModels(m1, target.models, distance, rolls, Fresh(pos));
      front.Ok?
      && |front.value.damage| <= |r.damage|
      && r.damage[..|front.value.damage|] == front.value.damage
      && forall k | |front.value.damage| <= k < |r.damage| :: r.damage[k] in SquadDamages(m2)
  {
    StrikeModelsAppend(m1, m2, target.models, distance, rolls, Fresh(pos));
  }

  /** A squad without weapons, an empty one included, deals no damage and
      rolls no dice. */
  lemma UnarmedSquadDealsNothing(squad: Squad, target: Squad, distance: i32, rolls: Rolls, pos: nat)
    requires WeaponCount(squad.models) == 0
    ensures Resolve(squad, target, distance, rolls, pos) == Ok(Fresh(pos))
  {
    var r := Resolve(squad, target, distance, rolls, pos);
    if r.Ok? {
      assert r.value.hits == 0;
    }
    NoWeaponsIsOutOfRange(squad.models, distance);
  }

  lemma {:induction false} NoWeaponsIsOutOfRange(models: seq<Model>, distance: i32)
    requires WeaponCount(models) == 0
    ensures OutOfRange(models, distance)
  {
    if models != [] {
      NoWeaponsIsOutOfRange(models[1..], distance);
      forall i, k | 0 <= i < |models| && 0 <= k < |models[i].weapons|
        ensures !InRange(models[i].weapons[k].range, distance)
      {
        if i > 0 {
          assert models[i] == models[1..][i - 1];
        }
      }
    }
  }

  /** The body of the inner loop of `attack`: the range gate, `hit`, the
      wound loop and the save loop for one weapon. */
  method FireWeapon(weapon: Weapon, target: Squad, distance: i32, rolls: Rolls, acc: Volley) returns (r: Outcome<Volley>)
    ensures r == StrikeWeapon(weapon, target.models, distance, rolls, acc)
  {
    // Both arms of the program's range check that reach `hit`; the other
    // arm is its `continue`.
    var eligible := match weapon.range
      case Some(range) => range >= distance
      case None => true;
    if !eligible {
      return Ok(acc);
    }
    var hitCount: nat := 0;
    var hits, _, next := Hit(weapon, rolls, acc.next);
    if hits {
      hitCount := hitCount + 1;
    }
    ghost var afterHit := next;

    var woundCount: nat := 0;
    for k := 0 to hitCount
      invariant next == afterHit + k
      invariant k == 0 ==> woundCount == 0
      invariant k > 0 ==>
        (target.models != [] && IsI32(2 * weapon.strength as int)
         && woundCount == CountAtLeast(rolls, afterHit, k, WoundThreshold(weapon.strength, target.models[0].toughness)))
    {
      var wound := rolls(next);
      next := next + 1;
      if !IsI32(2 * weapon.strength as int) {
        return Panicked(Overflow);
      }
      if |target.models| == 0 {
        return Panicked(IndexOutOfBounds);
      }
      var woundThreshold := WoundThreshold(weapon.strength, target.models[0].toughness);
      if wound as int >= woundThreshold {
        woundCount := woundCount + 1;
      }
    }
    ghost var afterWound := next;

    var failedSaves: nat := 0;
    var damage := acc.damage;
    for k := 0 to woundCount
      invariant next == afterWound + k
      invariant k == 0 ==> failedSaves == 0 && damage == acc.damage
      invariant k > 0 ==>
        (IsI32(target.models[0].save as int + weapon.penetration as int)
         && failedSaves == CountBelow(rolls, afterWound, k, SaveThreshold(target.models[0], weapon))
         && damage == acc.damage + Repeat(weapon.damage, failedSaves))
    {
      var saveRoll := rolls(next);
      next := next + 1;
      var modifiedSave := target.models[0].save as int + weapon.penetration as int;
      if !IsI32(modifiedSave) {
        return Panicked(Overflow);
      }
      var savingThrow := SaveThreshold(target.models[0], weapon);
      if (saveRoll as int) < savingThrow {
        failedSaves := failedSaves + 1;
        damage := damage + [weapon.damage];
      }
    }
    r := Ok(Volley(damage, next, acc.hits + hitCount, acc.wounds + woundCount, acc.failedSaves + failedSaves));
  }

  /** `attack`: the nested loops over the models of `squad` and their
      weapons, firing at `target` from `distance` on the dice from roll
      number `pos`. */
  method Attack(squad: Squad, target: Squad, distance: i32, rolls: Rolls, pos: nat) returns (r: Outcome<Volley>)
    ensures r == Resolve(squad, target, distance, rolls, pos)
  {
    var acc := Fresh(pos);
    for i := 0 to |squad.models|
      invariant Resolve(squad, target, distance, rolls, pos) == StrikeModels(squad.models[i..], target.models, distance, rolls, acc)
    {
      var model := squad.models[i];
      assert squad.models[i..][0] == model && squad.models[i..][1..] == squad.models[i + 1..];
      ghost var before := acc;
      for j := 0 to |model.weapons|
        invariant StrikeWeapons(model.weapons, target.models, distance, rolls, before)
               == StrikeWeapons(model.weapons[j..], target.models, distance, rolls, acc)
      {
        assert model.weapons[j..][0] == model.weapons[j] && model.weapons[j..][1..] == model.weapons[j + 1..];
        var fired := FireWeapon(model.weapons[j], target, distance, rolls, acc);
        match fired {
          case Panicked(why) =>
            return Panicked(why);
          case Ok(v) =>
            acc := v;
        }
      }
    }
    r := Ok(acc);
  }
}
