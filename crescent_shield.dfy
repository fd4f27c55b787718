/** The crescent shield: a regenerating health pool with a break/rebuild
    hysteresis, a glow intensity that follows the health above the viability
    floor, and an idempotent destruction. Its collision tree is reduced to the
    flags the shield changes. */
module Shields {
  import opened Wrappers

  /** The shield's collision tree, as far as the shield uses it: whether it takes
      part in collision tests, whether it was destroyed, and how many times its
      destruction was requested. */
  class CollisionTree {
    var enabled: bool
    var destroyed: bool
    var destroyRequests: nat

    constructor ()
      ensures enabled && !destroyed && destroyRequests == 0
    {
      enabled := true;
      destroyed := false;
      destroyRequests := 0;
    }

    method Enable()
      modifies this`enabled
      ensures enabled
    {
      enabled := true;
    }

    method Disable()
      modifies this`enabled
      ensures !enabled
    {
      enabled := false;
    }

    method Destroy()
      modifies this`destroyed, this`destroyRequests
      ensures destroyed && destroyRequests == old(destroyRequests) + 1
    {
      destroyed := true;
      destroyRequests := destroyRequests + 1;
    }
  }

  /** A damaging hit; damage is optional. */
  datatype CollisionSignal = CollisionSignal(isActive: bool, damage: Option<real>)

  /** The damage an active signal does: its damage when present and non-zero, else 0. */
  function DamageOf(signal: CollisionSignal): (d: real)
    ensures signal.damage.None? ==> d == 0.0
    ensures signal.damage.Some? ==> d == signal.damage.value
  {
    if signal.damage.Some? && signal.damage.value != 0.0 then signal.damage.value else 0.0
  }

  /** `minimumHealth || maximumHealth * 0.4`: a given non-zero minimum, else 40% of the maximum. */
  function MinimumHealthFor(minimumHealth: Option<real>, maximumHealth: real): (m: real)
    ensures minimumHealth.Some? && minimumHealth.value != 0.0 ==> m == minimumHealth.value
    ensures (minimumHealth.None? || minimumHealth.value == 0.0) && maximumHealth > 0.0 ==>
              0.0 < m < maximumHealth
  {
    if minimumHealth.Some? && minimumHealth.value != 0.0 then minimumHealth.value else maximumHealth * 0.4
  }

  /** A quotient of a part by a positive whole lies between 0 and 1. */
  lemma QuotientInUnitInterval(part: real, whole: real, r: real)
    requires whole > 0.0 && 0.0 <= part <= whole && r * whole == part
    ensures 0.0 <= r <= 1.0
  {
  }

  /** A quotient of a non-zero whole by itself is 1. */
  lemma WholeQuotientIsOne(whole: real, r: real)
    requires whole != 0.0 && r * whole == whole
    ensures r == 1.0
  {
    assert (r - 1.0) * whole == 0.0;
  }

  class CrescentShield {
    const collisionTree: CollisionTree

    var health: real
    const minimumHealth: real
    const maximumHealth: real
    const healthRegeneration: real

    /** maximumHealth − minimumHealth. */
    const viableHealthFactor: real
    /** The share of the health above minimumHealth. */
    var viableHealthRatio: real

    var isBeingDestroyed: bool
    var isActive: bool
    var isBroken: bool

    var currentIntensity: real
    const minimumIntensity: real := 0.25
    const maximumIntensity: real := 1.0
    const intensityFactor: real := maximumIntensity - minimumIntensity

    ghost predicate Valid()
      reads this
    {
      && viableHealthFactor == maximumHealth - minimumHealth
      && viableHealthFactor != 0.0
    }

    /** The tree takes part in collisions exactly when the shield is not broken. */
    ghost predicate TreeFollowsBroken()
      reads this, collisionTree
    {
      collisionTree.enabled == !isBroken
    }

    /** A tree's destruction state, which only Destroy changes. */
    ghost function TreeDestruction(): (bool, nat)
      reads this, collisionTree
    {
      (collisionTree.destroyed, collisionTree.destroyRequests)
    }

    constructor (minimumHealth: Option<real>, maximumHealth: real, healthRegeneration: real)
      requires MinimumHealthFor(minimumHealth, maximumHealth) != maximumHealth
      ensures Valid() && TreeFollowsBroken()
      ensures minimumHealth.Some? && minimumHealth.value != 0.0 ==> this.minimumHealth == minimumHealth.value
      ensures minimumHealth.None? || minimumHealth.value == 0.0 ==> this.minimumHealth == 0.4 * maximumHealth
      ensures this.maximumHealth == maximumHealth && this.healthRegeneration == healthRegeneration
      ensures health == maximumHealth
      ensures viableHealthFactor == maximumHealth - this.minimumHealth
      ensures viableHealthRatio == 1.0
      ensures !isBroken && !isBeingDestroyed && isActive && currentIntensity == 1.0
      ensures fresh(collisionTree)
      ensures collisionTree.enabled && TreeDestruction() == (false, 0)
    {
      this.minimumHealth := MinimumHealthFor(minimumHealth, maximumHealth);
      this.maximumHealth := maximumHealth;
      health := maximumHealth;
      this.healthRegeneration := healthRegeneration;
      viableHealthFactor := maximumHealth - MinimumHealthFor(minimumHealth, maximumHealth);
      isBeingDestroyed := false;
      isActive := true;
      isBroken := false;
      currentIntensity := 1.0;
      collisionTree := new CollisionTree();
      new;
      assert health - this.minimumHealth == viableHealthFactor;
      viableHealthRatio := CalculateViableHealthRatio();
      WholeQuotientIsOne(viableHealthFactor, viableHealthRatio);
      // The shield starts unbroken, so the source's "disable the tree when broken"
      // just before this line never runs and is left out.
      collisionTree.Enable();
    }

    /** (health − minimumHealth) / viableHealthFactor. */
    function CalculateViableHealthRatio(): (r: real)
      reads this
      requires Valid()
      ensures r * viableHealthFactor == health - minimumHealth
      ensures r == 0.0 <==> health == minimumHealth
      ensures viableHealthFactor > 0.0 && minimumHealth <= health <= maximumHealth ==> 0.0 <= r <= 1.0
    {
      var r := (health - minimumHealth) / viableHealthFactor;
      if viableHealthFactor > 0.0 && minimumHealth <= health <= maximumHealth then
        QuotientInUnitInterval(health - minimumHealth, viableHealthFactor, r);
        r
      else
        r
    }

    /** One tick: clamp negative health to 0, regenerate while not above the maximum,
        rebuild a broken shield once health reaches the minimum, refresh the ratio
        and, unless broken, the intensity. */
    method Update()
      requires Valid()
      modifies this`health, this`isBroken, this`viableHealthRatio, this`currentIntensity, collisionTree
      ensures Valid()
      ensures var clamped := if old(health) < 0.0 then 0.0 else old(health);
              health == if clamped <= maximumHealth then clamped + healthRegeneration else clamped
      ensures isBroken == (old(isBroken) && health < minimumHealth)
      ensures viableHealthRatio == if health >= minimumHealth then CalculateViableHealthRatio() else 0.0
      ensures currentIntensity ==
              if isBroken then old(currentIntensity) else minimumIntensity + intensityFactor * viableHealthRatio
      ensures collisionTree.enabled == if old(isBroken) && !isBroken then true else old(collisionTree.enabled)
      ensures TreeDestruction() == old(TreeDestruction())
      ensures old(TreeFollowsBroken()) ==> TreeFollowsBroken()
      ensures healthRegeneration >= 0.0 ==> health >= 0.0
      ensures maximumHealth >= 0.0 && healthRegeneration >= 0.0 && old(health) <= maximumHealth + healthRegeneration ==>
                health <= maximumHealth + healthRegeneration
    {
      if health < 0.0 {
        health := 0.0;
      }

      if health <= maximumHealth {
        health := health + healthRegeneration;
      }

      if health >= minimumHealth {
        if isBroken {
          Build();
        }
        viableHealthRatio := CalculateViableHealthRatio();
      } else {
        viableHealthRatio := 0.0;
      }

      if !isBroken {
        currentIntensity := minimumIntensity + intensityFactor * viableHealthRatio;
      }
    }

    /** The first call marks the shield as being destroyed, deactivates it and destroys
        its tree; every later call changes nothing. */
    method Destroy()
      modifies this`isBeingDestroyed, this`isActive, collisionTree
      ensures isBeingDestroyed
      ensures collisionTree.enabled == old(collisionTree.enabled)
      ensures old(isBeingDestroyed) ==> isActive == old(isActive) && TreeDestruction() == old(TreeDestruction())
      ensures !old(isBeingDestroyed) ==>
                && !isActive
                && collisionTree.destroyed
                && collisionTree.destroyRequests == old(collisionTree.destroyRequests) + 1
    {
      if isBeingDestroyed {
        return;
      }
      isBeingDestroyed := true;
      isActive := false;
      collisionTree.Destroy();
    }

    method Build()
      modifies this`isBroken, collisionTree
      ensures !isBroken && TreeFollowsBroken()
      ensures TreeDestruction() == old(TreeDestruction())
    {
      isBroken := false;
      collisionTree.Enable();
    }

    /** Breaking an already broken shield changes nothing. */
    method Break()
      modifies this`isBroken, collisionTree
      ensures isBroken
      ensures collisionTree.enabled == if old(isBroken) then old(collisionTree.enabled) else false
      ensures !old(isBroken) ==> TreeFollowsBroken()
      ensures TreeDestruction() == old(TreeDestruction())
    {
      if isBroken {
        return;
      }
      isBroken := true;
      collisionTree.Disable();
    }

    /** An inactive signal changes nothing; an active one takes its damage off the
        health and breaks the shield once health is at or below 0. */
    method AcknowledgeSignal(signal: CollisionSignal)
      modifies this`health, this`isBroken, collisionTree
      ensures !signal.isActive ==>
                && health == old(health) && isBroken == old(isBroken)
                && collisionTree.enabled == old(collisionTree.enabled)
      ensures signal.isActive ==>
                && health == old(health) - DamageOf(signal)
                && isBroken == (old(isBroken) || health <= 0.0)
                && collisionTree.enabled == if !old(isBroken) && health <= 0.0 then false else old(collisionTree.enabled)
      ensures TreeDestruction() == old(TreeDestruction())
      ensures old(TreeFollowsBroken()) ==> TreeFollowsBroken()
    {
      if !signal.isActive {
        return;
      }

      var damageToBeDone := 0.0;
      if signal.damage.Some? && signal.damage.value != 0.0 {
        damageToBeDone := signal.damage.value;
      }

      health := health - damageToBeDone;

      if health <= 0.0 {
        Break();
      }
    }
  }
}
