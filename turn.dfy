/** The turn sequencer (`turn`): move, shoot, charge check and, at
    distance zero, one exchange of melee strikes. */
module TurnSequencer {
  import opened Entities
  import opened AttackResolver
  import opened DamageApplicator

  /** The farthest post-move distance from which a charge is attempted. */
  const CHARGE_RANGE: int := 12

  /** The outcome of the charge check: whether it succeeded, the distance
      after it and the next die to roll. */
  datatype Charge = Charge(charged: bool, distance: i32, next: nat)

  /** The squads after a round and the next die to roll. */
  datatype Round = Round(attackers: Squad, defenders: Squad, next: nat)

  /** The charge check: within charge range two dice are rolled, and the
      charge succeeds when their sum does not exceed the distance, closing it
      to zero. With dice showing 1 to 5 it can only succeed from 2 to 12 and
      always succeeds from 10 to 12. */
  function ChargePhase(distance: i32, rolls: Rolls, pos: nat): (c: Charge)
    ensures c.charged ==> 2 <= distance as int <= CHARGE_RANGE && c.distance == 0
    ensures !c.charged ==> c.distance == distance
    ensures 10 <= distance as int <= CHARGE_RANGE ==> c.charged
    ensures c.next == if distance as int <= CHARGE_RANGE then pos + 2 else pos
  {
    if distance as int <= CHARGE_RANGE then
      if rolls(pos) as int + rolls(pos + 1) as int <= distance as int then Charge(true, 0, pos + 2)
      else Charge(false, distance, pos + 2)
    else Charge(false, distance, pos)
  }

  /** The fight at distance zero. After a charge the attackers strike the
      defenders, and the defenders that are left strike back. Without a
      charge `turn` pairs the strikes the other way: the attackers'
      strike is applied to the attackers, then the defenders' strike on the
      reduced attackers is applied to the defenders. */
  function Fight(charged: bool, attackers: Squad, defenders: Squad, rolls: Rolls, pos: nat): (r: Outcome<Round>)
    ensures r.Ok? ==> |r.value.attackers.models| <= |attackers.models| && |r.value.defenders.models| <= |defenders.models|
    ensures r.Ok? ==> r.value.next >= pos
  {
    if charged then
      match Resolve(attackers, defenders, 0, rolls, pos)
      case Panicked(why) => Panicked(why)
      case Ok(strike) =>
        var struck := Applied(defenders, strike.damage);
        match Resolve(struck, attackers, 0, rolls, strike.next)
        case Panicked(why) => Panicked(why)
        case Ok(counter) => Ok(Round(Applied(attackers, counter.damage), struck, counter.next))
    else
      match Resolve(attackers, defenders, 0, rolls, pos)
      case Panicked(why) => Panicked(why)
      case Ok(first) =>
        var attackersLeft := Applied(attackers, first.damage);
        match Resolve(defenders, attackersLeft, 0, rolls, first.next)
        case Panicked(why) => Panicked(why)
        case Ok(second) => Ok(Round(attackersLeft, Applied(defenders, second.damage), second.next))
  }

  /** The distance after the attackers' lead model moves. */
  function PostMove(attackers: Squad, startingDistance: i32): int
    requires attackers.models != []
  {
    startingDistance as int - attackers.models[0].movement as int
  }

  /** `turn(attackers, defenders, starting_distance)` on the dice from roll
      number `pos`. */
  function PlayTurn(attackers: Squad, defenders: Squad, startingDistance: i32, rolls: Rolls, pos: nat): (r: Outcome<Round>)
    ensures attackers.models == [] ==> r == Panicked(IndexOutOfBounds)
    ensures r.Ok? ==> |r.value.attackers.models| <= |attackers.models| && |r.value.defenders.models| <= |defenders.models|
    ensures r.Ok? ==> r.value.next >= pos
  {
    if attackers.models == [] then Panicked(IndexOutOfBounds)
    else if !IsI32(PostMove(attackers, startingDistance)) then Panicked(Overflow)
    else
      var distance := PostMove(attackers, startingDistance) as i32;
      match Resolve(attackers, defenders, distance, rolls, pos)
      case Panicked(why) => Panicked(why)
      case Ok(shot) =>
        var shotDefenders := Applied(defenders, shot.damage);
        var charge := ChargePhase(distance, rolls, shot.next);
        if charge.distance == 0 then Fight(charge.charged, attackers, shotDefenders, rolls, charge.next)
        else Ok(Round(attackers, shotDefenders, charge.next))
  }

  /** The charge block of `turn`: within charge range, two dice are rolled
      and a sum no greater than the distance closes it to zero. */
  method ChargeCheck(distance: i32, rolls: Rolls, pos: nat) returns (c: Charge)
    ensures c == ChargePhase(distance, rolls, pos)
  {
    var distance, charged, next := distance, false, pos;
    if distance as int <= CHARGE_RANGE {
      var first := rolls(next);
      var second := rolls(next + 1);
      next := next + 2;
      if first as int + second as int <= distance as int {
        distance := 0;
        charged := true;
      }
    }
    c := Charge(charged, distance, next);
  }

  /** The fight block of `turn`: the two strikes at distance zero, each
      applied as soon as it is resolved. */
  method Melee(charged: bool, attackers: Squad, defenders: Squad, rolls: Rolls, pos: nat) returns (r: Outcome<Round>)
    ensures r == Fight(charged, attackers, defenders, rolls, pos)
  {
    var attackers, defenders := attackers, defenders;
    if charged {
      var attackerDamage := Attack(attackers, defenders, 0, rolls, pos);
      if attackerDamage.Panicked? {
        return Panicked(attackerDamage.reason);
      }
      defenders := ApplyDamage(defenders, attackerDamage.value.damage);
      var defenderDamage := Attack(defenders, attackers, 0, rolls, attackerDamage.value.next);
      if defenderDamage.Panicked? {
        return Panicked(defenderDamage.reason);
      }
      attackers := ApplyDamage(attackers, defenderDamage.value.damage);
      r := Ok(Round(attackers, defenders, defenderDamage.value.next));
    } else {
      var defenderDamage := Attack(attackers, defenders, 0, rolls, pos);
      if defenderDamage.Panicked? {
        return Panicked(defenderDamage.reason);
      }
      attackers := ApplyDamage(attackers, defenderDamage.value.damage);
      var attackerDamage := Attack(defenders, attackers, 0, rolls, defenderDamage.value.next);
      if attackerDamage.Panicked? {
        return Panicked(attackerDamage.reason);
      }
      defenders := ApplyDamage(defenders, attackerDamage.value.damage);
      r := Ok(Round(attackers, defenders, attackerDamage.value.next));
    }
  }

  /** `turn`: reassigns the distance and the two squads phase by phase. */
  method Turn(attackers: Squad, defenders: Squad, startingDistance: i32, rolls: Rolls, pos: nat) returns (r: Outcome<Round>)
    ensures r == PlayTurn(attackers, defenders, startingDistance, rolls, pos)
  {
    var attackers, defenders, next := attackers, defenders, pos;

    // Move
    if |attackers.models| == 0 {
      return Panicked(IndexOutOfBounds);
    }
    var moved := startingDistance as int - attackers.models[0].movement as int;
    if !IsI32(moved) {
      return Panicked(Overflow);
    }
    var distance := moved as i32;

    // Shoot
    var shooting := Attack(attackers, defenders, distance, rolls, next);
    if shooting.Panicked? {
      return Panicked(shooting.reason);
    }
    defenders := ApplyDamage(defenders, shooting.value.damage);
    next := shooting.value.next;

    // Charge
    var charge := ChargeCheck(distance, rolls, next);

    // Fight
    if charge.distance == 0 {
      r := Melee(charge.charged, attackers, defenders, rolls, charge.next);
    } else {
      r := Ok(Round(attackers, defenders, charge.next));
    }
  }

  /** Damage dealt by `striker`, whose weapons deal non-negative damage,
      only removes models of `target` and lowers their wounds. */
  lemma StrikeDepletes(striker: Squad, target: Squad, volley: Volley)
    requires NonNegativeDamage(striker.models)
    requires forall k | 0 <= k < |volley.damage| :: volley.damage[k] in SquadDamages(striker.models)
    ensures Depleted(Applied(target, volley.damage).models, target.models)
  {
    ApplyDamageDepletes(target, volley.damage);
  }

  /** A depleted squad keeps non-negative damage on its weapons. */
  lemma DepletedKeepsNonNegative(after: Squad, before: Squad)
    requires Depleted(after.models, before.models) && NonNegativeDamage(before.models)
    ensures NonNegativeDamage(after.models)
  {
    DepletedDamages(after.models, before.models);
  }

  /** The fight only removes models and lowers wounds, on both sides. */
  lemma FightDepletes(charged: bool, attackers: Squad, defenders: Squad, rolls: Rolls, pos: nat)
    requires NonNegativeDamage(attackers.models) && NonNegativeDamage(defenders.models)
    ensures var r := Fight(charged, attackers, defenders, rolls, pos);
      r.Ok? ==> Depleted(r.value.attackers.models, attackers.models) && Depleted(r.value.defenders.models, defenders.models)
  {
    var r := Fight(charged, attackers, defenders, rolls, pos);
    if r.Ok? {
      var first := Resolve(attackers, defenders, 0, rolls, pos).value;
      if charged {
        var struck := Applied(defenders, first.damage);
        StrikeDepletes(attackers, defenders, first);
        DepletedKeepsNonNegative(struck, defenders);
        var counter := Resolve(struck, attackers, 0, rolls, first.next).value;
        StrikeDepletes(struck, attackers, counter);
      } else {
        var attackersLeft := Applied(attackers, first.damage);
        StrikeDepletes(attackers, attackers, first);
        var second := Resolve(defenders, attackersLeft, 0, rolls, first.next).value;
        StrikeDepletes(defenders, defenders, second);
      }
    }
  }

  /** A round only removes models and lowers wounds: both returned squads
      are order-preserving subsequences of the squads that started it, up to
      lowered wounds, and no model is ever added. */
  lemma TurnDepletes(attackers: Squad, defenders: Squad, startingDistance: i32, rolls: Rolls, pos: nat)
    requires NonNegativeDamage(attackers.models) && NonNegativeDamage(defenders.models)
    ensures var r := PlayTurn(attackers, defenders, startingDistance, rolls, pos);
      r.Ok? ==> Depleted(r.value.attackers.models, attackers.models) && Depleted(r.value.defenders.models, defenders.models)
  {
    var r := PlayTurn(attackers, defenders, startingDistance, rolls, pos);
    if r.Ok? {
      var distance := PostMove(attackers, startingDistance) as i32;
      var shot := Resolve(attackers, defenders, distance, rolls, pos).value;
      var shotDefenders := Applied(defenders, shot.damage);
      StrikeDepletes(attackers, defenders, shot);
      var charge := ChargePhase(distance, rolls, shot.next);
      if charge.distance == 0 {
        DepletedKeepsNonNegative(shotDefenders, defenders);
        FightDepletes(charge.charged, attackers, shotDefenders, rolls, charge.next);
        DepletedTrans(r.value.defenders.models, shotDefenders.models, defenders.models);
      } else {
        DepletedRefl(attackers.models);
      }
    }
  }

  /** Unless the attackers end their move in contact or within 2 to 12 of
      the defenders, there is no fight and the attackers come out of the
      round untouched: the charge needs a distance of at least 2 since the
      dice sum to at least 2. */
  lemma NoFightOutsideContact(attackers: Squad, defenders: Squad, startingDistance: i32, rolls: Rolls, pos: nat)
    requires attackers.models != []
    requires var d := PostMove(attackers, startingDistance); d < 0 || d == 1 || d > CHARGE_RANGE
    ensures var r := PlayTurn(attackers, defenders, startingDistance, rolls, pos);
      r.Ok? ==> r.value.attackers == attackers
  {
  }

  /** Without a charge, each squad's fight damage is computed from its own
      weapons: a squad of living models carrying no weapon suffers no fight
      losses whatever its opponent carries. */
  lemma ContactFightSelfInflicted(attackers: Squad, defenders: Squad, rolls: Rolls, pos: nat)
    ensures var r := Fight(false, attackers, defenders, rolls, pos);
      WeaponCount(attackers.models) == 0 && AllAlive(attackers.models) && r.Ok? ==> r.value.attackers == attackers
    ensures var r := Fight(false, attackers, defenders, rolls, pos);
      WeaponCount(defenders.models) == 0 && AllAlive(defenders.models) && r.Ok? ==> r.value.defenders == defenders
  {
    if WeaponCount(attackers.models) == 0 && AllAlive(attackers.models) {
      UnarmedSquadDealsNothing(attackers, defenders, 0, rolls, pos);
      NoDamageChangesNothing(attackers);
    }
    var first := Resolve(attackers, defenders, 0, rolls, pos);
    if WeaponCount(defenders.models) == 0 && AllAlive(defenders.models) && first.Ok? {
      var attackersLeft := Applied(attackers, first.value.damage);
      UnarmedSquadDealsNothing(defenders, attackersLeft, 0, rolls, first.value.next);
      NoDamageChangesNothing(defenders);
    }
  }

  /** Charge priority: the defenders strike back with what the charge left
      of them, so defenders wiped out by the charge inflict no loss on
      attackers that all had wounds. */
  lemma WipedOutDefendersCannotStrikeBack(attackers: Squad, defenders: Squad, rolls: Rolls, pos: nat)
    requires AllAlive(attackers.models)
    ensures var r := Fight(true, attackers, defenders, rolls, pos);
      r.Ok? && r.value.defenders.models == [] ==> r.value.attackers == attackers
  {
    var r := Fight(true, attackers, defenders, rolls, pos);
    if r.Ok? && r.value.defenders.models == [] {
      var strike := Resolve(attackers, defenders, 0, rolls, pos).value;
      UnarmedSquadDealsNothing(r.value.defenders, attackers, 0, rolls, strike.next);
      NoDamageChangesNothing(attackers);
    }
  }
}
