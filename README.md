# Combat calculator: a verified model of one round of combat

This project models how a round of tabletop miniature combat is resolved.
Two squads of models face each other at a starting distance, and the round
runs in four steps:

- the attacking squad moves closer;
- it shoots;
- it may charge;
- at distance zero, the two squads exchange melee strikes.

Each strike goes weapon by weapon through a range gate, a to-hit roll, a
to-wound roll and a saving throw. Every failed save adds the weapon's damage
to a damage list. The list is applied to the target squad in model order,
and models left without wounds are removed.

The dice are not random here. A round reads its dice from a stream of rolls
(`Entities.Rolls`, roll number `i` is `rolls(i)`) and carries a cursor into
that stream. Each die has the faces 1 to 5 (`Entities.Die`), because the
program's `gen_range(1..6)` is a half-open range.

A Rust panic becomes the outcome `Panicked`:

- `IndexOutOfBounds`: `models[0]` is read from an empty squad. This happens
  to the attackers when they move, and to a target squad once a weapon has
  hit it.
- `Overflow`: checked `i32` arithmetic overflows (debug-build semantics), in
  `str * 2`, in `save + penetration` or in `starting_distance - movement`.

Modules, one per component of `src/main.rs`:

- `Entities` (`entities.dfy`): `Weapon`, `Model` and `Squad` as values, the
  `i32` newtype, the dice, and the `Outcome` of a step that may panic.
- `HitRoll` (`hit.dfy`): `hit`.
- `AttackResolver` (`attack.dfy`): `attack`, including the wound-threshold
  rule and the saving throw.
- `DamageApplicator` (`damage.dfy`): `apply_damage`.
- `TurnSequencer` (`turn.dfy`): `turn`.

Each imperative routine of `src/main.rs` is a method, with loops where the
source loops:

- `HitRoll.Hit`;
- `AttackResolver.FireWeapon`, the body of the weapon loop;
- `AttackResolver.Attack`;
- `DamageApplicator.ApplyDamage`;
- `TurnSequencer.Turn`, with its charge and fight blocks as
  `TurnSequencer.ChargeCheck` and `TurnSequencer.Melee`.

Each method is proved equal to a specification function (`Successes`,
`StrikeWeapon`, `Resolve`, `Applied`, `ChargePhase`, `Fight`, `PlayTurn`). The properties are proved
about those functions.

## Quirks of the program

The model keeps each of these behaviours of `src/main.rs`:

- A d6 is `gen_range(1..6)` (src/main.rs:210-212), so it shows 1 to 5.
- The charge succeeds when the two dice sum to *at most* the distance
  (src/main.rs:237). With dice of 1 to 5 the charge therefore always
  succeeds from 10 to 12 and never below 2 (`TurnSequencer.ChargePhase`).
- Without a charge, the fight at distance zero works like this
  (src/main.rs:255-258):
  - the attackers' strike, resolved against the defenders, is applied to the
    attackers;
  - the defenders' strike, resolved against the reduced attackers, is
    applied to the defenders.

  So each squad's fight losses come from its own weapons
  (`TurnSequencer.ContactFightSelfInflicted`).
- `saturating_sub` on `i32` (src/main.rs:360) saturates at `i32::MIN`, so
  wounds can go negative. A model is still removed exactly when its wounds
  are no longer positive.
- An empty target squad panics on `models[0]` once a weapon has hit it
  (src/main.rs:306). One case: the shooting wipes out the defenders, a
  charge follows, and one attacking weapon hits.

## Model

| member | source | states |
|---|---|---|
| `HitRoll.Successes` | src/main.rs:346-352 | at most `n` rolls are recorded, each of them reaches the skill, and some roll is recorded iff one of the `n` dice reaches the skill |
| `HitRoll.Hit` | src/main.rs:342-354 | rolls `max(attacks, 0)` dice and records exactly the successful rolls, in order; the result is true iff some roll reaches the skill; with `attacks <= 0` it is `(false, [])` |
| `AttackResolver.WoundThreshold` | src/main.rs:305-311 | the first matching row of the rule table (6, 5, 4, 2 with truncating halving, else 3) is always between 2 and 6 |
| `AttackResolver.WoundThresholdFallsWithStrength` | src/main.rs:305-311 | a stronger weapon never needs a higher wound roll against the same toughness |
| `AttackResolver.WoundThresholdRisesWithToughness` | src/main.rs:305-311 | a tougher target never needs a lower wound roll from the same strength |
| `AttackResolver.WoundThresholdTable` | src/main.rs:305-311 | (4,8)→6, (3,5)→5, (3,3)→4, (4,4)→4, (8,3)→2, (5,4)→3, (6,3)→3, (10,4)→2 |
| `AttackResolver.SaveThreshold` | src/main.rs:321-326 | the saving throw is the lower of the lead model's save plus penetration and its invulnerable save, if any; without one it is the save plus penetration |
| `AttackResolver.CountAtLeast` | src/main.rs:301-315 | no more wounds than hits rolled; a single hit wounds iff its die reaches the threshold |
| `AttackResolver.CountBelow` | src/main.rs:320-332 | no more failed saves than wounds; a single save fails iff its die is below the threshold |
| `AttackResolver.StrikeWeapon` | src/main.rs:275-333 | a weapon out of range changes nothing; otherwise it consumes its to-hit dice plus one die per hit and one per wound, and adds one hit iff a die hits; it adds at most one hit, no more wounds than hits and no more failed saves than wounds, and appends its damage once per failed save; it panics only after a hit, against an empty target or on overflow |
| `AttackResolver.StrikeWeaponRolls` | src/main.rs:299-332 | after the hit, the next die wounds iff it reaches the wound threshold, and the die after it fails the save iff it is below the saving throw |
| `AttackResolver.StrikeWeapons` | src/main.rs:274-334 | over one model's weapons: at most one hit per weapon, entries only from those weapons appended after the earlier ones, nothing if no weapon is in range, no panic against a non-empty target without overflow |
| `AttackResolver.StrikeModels` | src/main.rs:273-335 | the same over all models, bounded by the total number of weapons |
| `AttackResolver.StrikeWeaponsAppend` | src/main.rs:274-334 | the weapon loop over `w1 + w2` is the loop over `w1` continued by the loop over `w2`, so each weapon's entries come before those of the weapons after it |
| `AttackResolver.StrikeModelsAppend` | src/main.rs:273-335 | the model loop over `m1 + m2` is the loop over `m1` continued by the loop over `m2`, so each model's entries come before those of the models after it |
| `AttackResolver.Resolve` | src/main.rs:267-340 | the damage list has one entry per failed save, and failed saves ≤ wounds ≤ hits ≤ number of weapons; every entry is the damage of a weapon of the attacking squad; no weapon in range gives `[]`; a non-empty target without overflow never panics; an index panic means the target is empty |
| `AttackResolver.ResolveInModelOrder` | src/main.rs:267-340 | for a squad `m1 + m2`, the damage list starts with exactly the entries of `m1`'s models, and every later entry is the damage of a weapon of `m2`; this is the order `apply_damage` hands entries to the target's models in |
| `AttackResolver.UnarmedSquadDealsNothing` | src/main.rs:273-274 | an empty squad, or one whose models carry no weapons, yields `[]` and rolls no dice |
| `AttackResolver.FireWeapon` | src/main.rs:275-333 | the range gate, `hit`, the wound loop and the save loop of one weapon compute exactly `StrikeWeapon` |
| `AttackResolver.Attack` | src/main.rs:267-340 | the nested model and weapon loops compute exactly `Resolve` |
| `DamageApplicator.SaturatingSub` | src/main.rs:360 | the exact difference clamped to the `i32` range; non-negative damage never raises wounds; the result is positive iff the exact difference is |
| `DamageApplicator.Damaged` | src/main.rs:357-361 | entry i is subtracted from model i; models past the end of the damage list are unchanged; surplus entries are unused |
| `DamageApplicator.Survivors` | src/main.rs:358-363 | no more models than before, and every kept model has wounds |
| `DamageApplicator.SurvivorsMembers` | src/main.rs:358-363 | a model is kept iff it was present and has wounds left |
| `DamageApplicator.SurvivorsSnoc` | src/main.rs:358-363 | filtering one more model at the end either keeps it or drops it, leaving the earlier result unchanged |
| `DamageApplicator.Applied` | src/main.rs:356-365 | the result has no more models than the target, all of them with wounds |
| `DamageApplicator.NoDamageChangesNothing` | src/main.rs:356-365 | an empty damage list leaves a squad of living models unchanged |
| `DamageApplicator.ApplyDamage` | src/main.rs:356-365 | the `retain_mut` walk with the damage iterator computes exactly `Applied` |
| `DamageApplicator.ApplyDamageDepletes` | src/main.rs:356-365 | with non-negative damage, the result is an order-preserving subsequence of the target whose wounds can only be lower |
| `DamageApplicator.SurvivalRule` | src/main.rs:358-362 | model i survives iff its damaged wounds are positive, which with an entry i is iff its wounds minus that entry are positive; without an entry it is untouched |
| `TurnSequencer.ChargePhase` | src/main.rs:236-245 | a charge is tried only within 12 and rolls two dice; success closes the distance to 0 and needs a distance from 2 to 12; success is certain from 10 to 12; failure leaves the distance unchanged; so at distance 0 the fight always runs in the non-charge order |
| `TurnSequencer.Fight` | src/main.rs:248-260 | the fight never adds models and never goes back in the dice |
| `TurnSequencer.FightDepletes` | src/main.rs:249-259 | with non-negative damage, both squads come out of the fight as order-preserving subsequences with wounds no higher |
| `TurnSequencer.ContactFightSelfInflicted` | src/main.rs:254-259 | without a charge, a squad of living models carrying no weapon suffers no fight losses, whatever its opponent carries |
| `TurnSequencer.WipedOutDefendersCannotStrikeBack` | src/main.rs:249-253 | after a charge the defenders strike back with what is left of them, so a wiped-out defending squad inflicts no losses on living attackers |
| `TurnSequencer.PlayTurn` | src/main.rs:224-265 | an empty attacking squad panics on the move; a completed round never adds models to either squad |
| `TurnSequencer.ChargeCheck` | src/main.rs:236-245 | the charge statements compute exactly `ChargePhase` |
| `TurnSequencer.Melee` | src/main.rs:248-260 | the fight statements, each strike applied as soon as it is resolved, compute exactly `Fight` |
| `TurnSequencer.Turn` | src/main.rs:224-265 | the move, shoot, charge and fight statements compute exactly `PlayTurn` |
| `TurnSequencer.TurnDepletes` | src/main.rs:224-264 | with non-negative damage, both returned squads are order-preserving subsequences of the starting squads with wounds no higher |
| `TurnSequencer.NoFightOutsideContact` | src/main.rs:236-260 | when the post-move distance is negative, 1 or above 12, no fight takes place and the attackers come out untouched |

## Left out

- `main` and the squad and weapon setup (src/main.rs:59-208), and
  `create_model_with_weapons` (src/main.rs:218-222). They only build the
  input data.
- The random number generator behind `d6` and `d3` (src/main.rs:210-216).
  The dice are a caller-supplied stream of faces 1 to 5, and their
  distribution is not modelled. `d3` is only used by the setup.
- The `println!` diagnostics (src/main.rs:206-207, 336-338). The hit,
  wound and failed-save totals they print are returned in the `Volley`
  instead.
- Data that no resolution step reads: the `Attributes` flags, `name`,
  `leadership` and `objective_control`.
- The `i32` overflow of the counters `total_hits`, `total_wounds` and
  `total_failed_saves`. They are unbounded naturals here, because
  overflowing them would take more than 2^31 weapons.
- Release-build wrapping arithmetic. Overflow is modelled as the debug-build
  panic.
- `DamageApplicator.ApplyDamage`: `retain_mut` compacts the squad's vector
  in place. The model builds the sequence of kept models instead. This is
  observably the same because the squad is owned and moved by value.
- `TurnSequencer.TurnDepletes`, `TurnSequencer.FightDepletes` and
  `DamageApplicator.ApplyDamageDepletes` assume weapon damage is
  non-negative. Nothing in `src/main.rs` checks this, and a negative damage
  value would raise a model's wounds.
