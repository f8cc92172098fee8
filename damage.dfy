/** The damage applicator (`apply_damage`): damage entry i is subtracted
    from model i, and the models left without wounds are removed, the others
    keeping their order. */
module DamageApplicator {
  import opened Entities

  /** `i32::saturating_sub`: the exact difference, clamped to the `i32`
      range (so it saturates at `i32::MIN`, not at zero). */
  function SaturatingSub(a: i32, b: i32): (r: i32)
    ensures IsI32(a as int - b as int) ==> r as int == a as int - b as int
    ensures a as int - b as int < I32_MIN ==> r as int == I32_MIN
    ensures a as int - b as int > I32_MAX ==> r as int == I32_MAX
    ensures b >= 0 ==> r <= a
    ensures r > 0 <==> a as int - b as int > 0
  {
    var d := a as int - b as int;
    if d < I32_MIN then I32_MIN as i32
    else if d > I32_MAX then I32_MAX as i32
    else d as i32
  }

  /** `model` after one damage entry. */
  function Struck(model: Model, damage: i32): Model {
    model.(wounds := SaturatingSub(model.wounds, damage))
  }

  /** The models after walking the damage list in lockstep with them: entry
      i goes to model i, models past the end of the list are untouched and
      entries past the end of the squad are unused. */
  function Damaged(models: seq<Model>, damage: seq<i32>): (r: seq<Model>)
    ensures |r| == |models|
    ensures forall i | 0 <= i < |models| ::
      r[i] == if i < |damage| then Struck(models[i], damage[i]) else models[i]
    decreases |models|
  {
    if models == [] then []
    else if damage == [] then [models[0]] + Damaged(models[1..], [])
    else [Struck(models[0], damage[0])] + Damaged(models[1..], damage[1..])
  }

  /** The models that still have wounds, in their original order. */
  function Survivors(models: seq<Model>): (r: seq<Model>)
    ensures |r| <= |models|
    ensures forall k | 0 <= k < |r| :: r[k].wounds > 0
    decreases |models|
  {
    if models == [] then []
    else (if models[0].wounds > 0 then [models[0]] else []) + Survivors(models[1..])
  }

  /** A model is kept exactly when it is one of the models and has wounds. */
  lemma {:induction false} SurvivorsMembers(models: seq<Model>, m: Model)
    ensures m in Survivors(models) <==> m in models && m.wounds > 0
    decreases |models|
  {
    if models != [] {
      SurvivorsMembers(models[1..], m);
      assert m in models <==> m == models[0] || m in models[1..];
    }
  }

  /** Filtering a squad one more model at a time, as `retain_mut` does. */
  lemma {:induction false} SurvivorsSnoc(models: seq<Model>, m: Model)
    ensures Survivors(models + [m]) == Survivors(models) + (if m.wounds > 0 then [m] else [])
    decreases |models|
  {
    if models == [] {
      assert [m][1..] == [];
    } else {
      assert (models + [m])[1..] == models[1..] + [m];
      SurvivorsSnoc(models[1..], m);
    }
  }

  /** A squad whose models all have wounds loses nothing to the filter. */
  lemma {:induction false} SurvivorsOfAlive(models: seq<Model>)
    requires AllAlive(models)
    ensures Survivors(models) == models
    decreases |models|
  {
    if models != [] {
      SurvivorsOfAlive(models[1..]);
    }
  }

  /** `apply_damage(target, damage)`. */
  function Applied(target: Squad, damage: seq<i32>): (r: Squad)
    ensures |r.models| <= |target.models|
    ensures AllAlive(r.models)
  {
    Squad(Survivors(Damaged(target.models, damage)))
  }

  /** An empty damage list leaves a squad of living models as it is. */
  lemma NoDamageChangesNothing(target: Squad)
    requires AllAlive(target.models)
    ensures Applied(target, []) == target
  {
    assert Damaged(target.models, []) == target.models;
    SurvivorsOfAlive(target.models);
  }

  /** `apply_damage`: walks the models in order, subtracting the next
      damage entry while the damage iterator yields one, and keeps the
      models that still have wounds. */
  method ApplyDamage(target: Squad, damage: seq<i32>) returns (r: Squad)
    ensures r == Applied(target, damage)
  {
    ghost var struck := Damaged(target.models, damage);
    var kept: seq<Model> := [];
    var used := 0;
    for i := 0 to |target.models|
      invariant used == if i < |damage| then i else |damage|
      invariant kept == Survivors(struck[..i])
    {
      var model := target.models[i];
      if used < |damage| {
        model := model.(wounds := SaturatingSub(model.wounds, damage[used]));
        used := used + 1;
      }
      assert model == struck[i];
      assert struck[..i + 1] == struck[..i] + [model];
      SurvivorsSnoc(struck[..i], model);
      if model.wounds > 0 {
        kept := kept + [model];
      }
    }
    assert struck[..|target.models|] == struck;
    r := Squad(kept);
  }

  /** `after` has the same profile as `before` with no more wounds. */
  predicate Lowered(after: Model, before: Model) {
    after == before.(wounds := after.wounds) && after.wounds <= before.wounds
  }

  /** `after` arises from `before` by removing models and lowering wounds:
      it is an order-preserving subsequence of `before` up to wounds. */
  predicate Depleted(after: seq<Model>, before: seq<Model>)
    decreases |before|
  {
    if after == [] then true
    else if before == [] then false
    else (Lowered(after[0], before[0]) && Depleted(after[1..], before[1..])) || Depleted(after, before[1..])
  }

  lemma {:induction false} DepletedRefl(models: seq<Model>)
    ensures Depleted(models, models)
    decreases |models|
  {
    if models != [] {
      DepletedRefl(models[1..]);
    }
  }

  lemma {:induction false} DepletedTrans(a: seq<Model>, b: seq<Model>, c: seq<Model>)
    requires Depleted(a, b) && Depleted(b, c)
    ensures Depleted(a, c)
    decreases |a| + |b| + |c|
  {
    if a != [] {
      if Lowered(b[0], c[0]) && Depleted(b[1..], c[1..]) {
        if Lowered(a[0], b[0]) && Depleted(a[1..], b[1..]) {
          DepletedTrans(a[1..], b[1..], c[1..]);
        } else {
          DepletedTrans(a, b[1..], c[1..]);
        }
      } else {
        DepletedTrans(a, b, c[1..]);
      }
    }
  }

  /** Removing models and lowering wounds adds no new weapon. */
  lemma {:induction false} DepletedDamages(after: seq<Model>, before: seq<Model>)
    requires Depleted(after, before)
    ensures SquadDamages(after) <= SquadDamages(before)
    decreases |before|
  {
    if after != [] {
      if Lowered(after[0], before[0]) && Depleted(after[1..], before[1..]) {
        DepletedDamages(after[1..], before[1..]);
      } else {
        DepletedDamages(after, before[1..]);
      }
    }
  }

  lemma {:induction false} SurvivorsDepleted(models: seq<Model>)
    ensures Depleted(Survivors(models), models)
    decreases |models|
  {
    if models != [] {
      SurvivorsDepleted(models[1..]);
      if models[0].wounds <= 0 {
        var rest := Survivors(models[1..]);
        assert Survivors(models) == rest;
        if rest != [] {
          assert Depleted(rest, models[1..]);
        }
      } else {
        assert Survivors(models)[1..] == Survivors(models[1..]);
      }
    }
  }

  lemma {:induction false} DamagedDepleted(models: seq<Model>, damage: seq<i32>)
    requires forall k | 0 <= k < |damage| :: damage[k] >= 0
    ensures Depleted(Damaged(models, damage), models)
    decreases |models|
  {
    if models != [] {
      var rest := if damage == [] then [] else damage[1..];
      DamagedDepleted(models[1..], rest);
      assert Damaged(models, damage)[1..] == Damaged(models[1..], rest);
    }
  }

  /** With non-negative damage, `apply_damage` only removes models and
      lowers wounds, and keeps the order of the models it keeps. */
  lemma ApplyDamageDepletes(target: Squad, damage: seq<i32>)
    requires forall k | 0 <= k < |damage| :: damage[k] >= 0
    ensures Depleted(Applied(target, damage).models, target.models)
  {
    DamagedDepleted(target.models, damage);
    SurvivorsDepleted(Damaged(target.models, damage));
    DepletedTrans(Applied(target, damage).models, Damaged(target.models, damage), target.models);
  }

  /** A model survives `apply_damage` exactly when the damage entry of its
      position, if there is one, leaves it with wounds. */
  lemma SurvivalRule(target: Squad, damage: seq<i32>, i: nat)
    requires i < |target.models|
    ensures var m := Damaged(target.models, damage)[i];
      m in Applied(target, damage).models <==> m.wounds > 0
    ensures i < |damage| ==>
      (Damaged(target.models, damage)[i].wounds > 0 <==> target.models[i].wounds as int - damage[i] as int > 0)
    ensures i >= |damage| ==> Damaged(target.models, damage)[i] == target.models[i]
  {
    SurvivorsMembers(Damaged(target.models, damage), Damaged(target.models, damage)[i]);
  }
}
