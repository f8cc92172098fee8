/** The combat entities: weapons, models and squads, the 32-bit integers
    they carry, the dice the rules roll and the way a resolution can panic. */
module Entities {

  const I32_MIN: int := -0x8000_0000
  const I32_MAX: int := 0x7fff_ffff

  /** Rust's `i32`. */
  newtype i32 = x: int | -0x8000_0000 <= x < 0x8000_0000

  /** Whether a mathematical integer fits in an `i32`, i.e. whether the
      program's checked arithmetic producing it would not overflow. */
  predicate IsI32(x: int) {
    I32_MIN <= x <= I32_MAX
  }

  /** One six-sided die as the program rolls it: `gen_range(1..6)` is a
      half-open range, so the faces are 1 to 5. */
  type Die = x: i32 | 1 <= x <= 5 witness 1

  /** The dice of one round, in the order they are rolled: roll number `i`
      is `rolls(i)`. A resolution keeps a cursor into this stream. */
  type Rolls = nat -> Die

  datatype Option<T> = None | Some(value: T)

  /** A weapon profile. `range == None` is a melee weapon. */
  datatype Weapon = Weapon(
    range: Option<i32>,
    attacks: i32,
    skill: i32,
    strength: i32,
    penetration: i32,
    damage: i32)

  /** One model of a squad; `wounds` is the only field combat changes. */
  datatype Model = Model(
    movement: i32,
    toughness: i32,
    save: i32,
    invulnerable: Option<i32>,
    wounds: i32,
    weapons: seq<Weapon>)

  /** An ordered group of models; the order decides who absorbs damage first. */
  datatype Squad = Squad(models: seq<Model>)

  /** Why a resolution panics: indexing `models[0]` of an empty squad, or
      checked `i32` arithmetic that overflows. */
  datatype Panic = IndexOutOfBounds | Overflow

  /** The result of a step that may panic. */
  datatype Outcome<T> = Ok(value: T) | Panicked(reason: Panic)

  /** The number of weapons carried by all of `models`. */
  function WeaponCount(models: seq<Model>): nat {
    if models == [] then 0 else |models[0].weapons| + WeaponCount(models[1..])
  }

  /** The damage values of `weapons`. */
  function Damages(weapons: seq<Weapon>): set<i32> {
    if weapons == [] then {} else {weapons[0].damage} + Damages(weapons[1..])
  }

  /** The damage values of every weapon carried by `models`. */
  function SquadDamages(models: seq<Model>): set<i32> {
    if models == [] then {} else Damages(models[0].weapons) + SquadDamages(models[1..])
  }

  /** Every weapon of the squad deals a non-negative damage, as the rule
      tables have it. */
  predicate NonNegativeDamage(models: seq<Model>) {
    forall x | x in SquadDamages(models) :: x >= 0
  }

  /** Every model still has wounds left. */
  predicate AllAlive(models: seq<Model>) {
    forall k | 0 <= k < |models| :: models[k].wounds > 0
  }
}
