# Promo-Schmup core in Dafny

This project models three parts of the game Promo-Schmup, and proves properties of each:

- **The line–circle intersection solver** (`EquationSolver`, module `EquationSolving`, `equation_solver.dfy`).
  - It holds one line and one circle.
  - It turns two points into a line in general form, with a separate branch for vertical lines.
  - It turns a centre and radius into a circle in negated general form.
  - It substitutes the explicit form of the line into the circle to get a quadratic.
  - It appends 0, 1 or 2 tagged intersection points to a scratch list, depending on the sign of the quadratic's discriminant.
  - It has a stable closest-point scan over that list.
  - It has an in-place, order-preserving direction filter that compacts the list.
- **The crescent shield** (`CrescentShield`, module `Shields`, `crescent_shield.dfy`).
  - It is a regenerating health pool with a break/rebuild hysteresis.
  - It has a glow intensity that follows the share of health above the minimum.
  - Its destruction is idempotent.
  - Its collision tree is reduced to the flags the shield changes.
- **Level wave sequencing** (`Level`, module `Levels`, `level.dfy`).
  - The pushed waves are reversed once and used as a stack.
  - Each update advances at most one wave.
  - When no wave is left, the update reports the game as won.

`scenarios.dfy` (module `Scenarios`) drives these classes the way their callers do:

- One projectile step against one circle: in general, on one concrete vertical segment, and on every rightward or leftward step along y = 0 that starts left of the circle.
- A shield configured as the Beta kamikaze enemy configures it.

`wrappers.dfy` holds `Option` and `Result`.

Modelling choices:

- Numbers are `real`.
- The host's `Math.sqrt` is a parameter `sqrt: real -> real`.
  - The general lemmas rely on it only through `IsSqrt`: for `d >= 0`, `sqrt(d) >= 0` and `sqrt(d) * sqrt(d) == d`.
  - The concrete scenarios need only `sqrt(36) == 6`, which `Scenarios.SqrtOf36` derives from `IsSqrt`.
- The closest-point scan compares squared distances. This chooses the same point as `distanceTo` (`EquationSolving.SquaredDistanceOrdersLikeDistance`).
- Each class is a Dafny class with the source's fields:
  - The solver's three-slot holder is an `array<real>`.
  - Its point list is a `seq` field that the methods reassign.
  - The level's arrays are `seq` fields.
- Each method is proved against a specification function:
  - `LineThroughPoints`, `CircleFromCentre`, `Intersections`, `FilterDirection`, `Reversed`, `Pops` and `CalculateViableHealthRatio`.
  - The lemmas beside these functions prove what the source promises about them.

## Model

| member | source | states |
|---|---|---|
| EquationSolving.LineThroughPoints | EquationSolver.ts:89-139 | The built line is vertical exactly when the points share x. It is horizontal exactly when they differ in x and share y. A vertical line has coA = −1, coB = 0; any other line has coB = 1. |
| EquationSolving.LineThroughPointsCoefficients | EquationSolver.ts:102-129 | When v1.x = v2.x (coincident points included): coA = −1, coB = 0, coC = v1.x. Otherwise: coB = 1, coA = −slope and coC = −v1.y + slope·v1.x, with slope = (v2.y − v1.y)/(v2.x − v1.x). |
| EquationSolving.LineThroughPointsContainsEnds | EquationSolver.ts:102-129 | Both input points satisfy the built line equation coA·x + coB·y + coC = 0. |
| EquationSolving.LineThroughPointsIsCollinear | EquationSolver.ts:102-129 | For two distinct points, a point lies on the built line exactly when it is collinear with them. |
| EquationSolving.LineThroughLevelPoints | EquationSolver.ts:108-119 | Two points side by side at the same height give the horizontal line y = v1.y, with slope 0. |
| EquationSolving.CircleFromCentre | EquationSolver.ts:190-209 | The stored squared radius is never negative, whatever the sign of the given radius. |
| EquationSolving.CircleFromCentreIsCircle | EquationSolver.ts:190-209 | The stored circle (negated centre, squared radius) holds exactly the points at distance `radius` from the centre. |
| EquationSolving.GeneralEquationVariables | EquationSolver.ts:211-220 | The triple (x, y, k) makes (px + x)² + (py + y)² + k = 0 equivalent to lying on the circle. k ≤ 0 when the squared radius is non-negative. |
| EquationSolving.ExplicitYIsLine | EquationSolver.ts:141-164 | On a line with coB = 1, a point satisfies the general equation exactly when y = k·x + m for the (k, m) the y-function holder stores. |
| EquationSolving.ExplicitXIsLine | EquationSolver.ts:166-188 | On a line with coA = −1, a point satisfies the general equation exactly when x = k·y + m for the (k, m) the x-function holder stores. |
| EquationSolving.SubstitutionIsExact | EquationSolver.ts:255-283 | On every line the solver can hold, the circle's left-hand side at the explicit point for t equals the substituted quadratic at t. |
| EquationSolving.RootSolves | EquationSolver.ts:301-305 | (−b ± √D)/2a solves the quadratic. |
| EquationSolving.RootsComplete | EquationSolver.ts:301-305 | Every root of the quadratic is one of the two the formula gives. |
| EquationSolving.NoRootWhenNegative | EquationSolver.ts:293-299 | A negative discriminant leaves the quadratic without real roots. |
| EquationSolving.Intersections | EquationSolver.ts:289-337 | Gives 2 points when D > 0, 1 when D = 0, none when D < 0. Every point is tagged with the index. The first point is the +√D root. |
| EquationSolving.RootPointsAreOnLineAndCircle | EquationSolver.ts:301-325 | For any s with s² = D, the line points at both formula roots (−b ± s)/2a lie on the line and on the circle. |
| EquationSolving.IntersectionsAreOnLineAndCircle | EquationSolver.ts:255-325 | Every appended point satisfies both the stored line equation and the stored circle equation, in the explicit-y and the vertical branch alike. |
| EquationSolving.AppendedAreOnLineAndCircle | EquationSolver.ts:316-337 | After appending the intersections to any earlier list, every position past the earlier points holds a point on the line and the circle. |
| EquationSolving.IntersectionsAreComplete | EquationSolver.ts:255-337 | Every common point of a line built from two points and the circle is among the appended ones. |
| EquationSolving.TwoIntersectionsAreDistinct | EquationSolver.ts:293-294 | With a positive discriminant, the two appended points differ. |
| EquationSolving.DistinctRoots | EquationSolver.ts:301-305 | With a ≠ 0 and a non-zero root of the discriminant, the two formula roots differ. |
| EquationSolving.DistinctParametersDistinctPoints | EquationSolver.ts:316-325 | Two different roots give two different points on the line, in either branch. |
| EquationSolving.SquaredDistanceOrdersLikeDistance | EquationSolver.ts:357-359 | The square roots of two squared distances compare as the squared distances do. So the squared scan picks the point `distanceTo` would. |
| EquationSolving.FirstClosestIsUnique | EquationSolver.ts:351-365 | At most one index is the first closest one, so the point the scan returns is determined. |
| EquationSolving.FilterDirection | EquationSolver.ts:369-410 | The surviving points are never more than the stored ones. |
| EquationSolving.FilterDirectionCounts | EquationSolver.ts:379-405 | Each point heading in the direction keeps all its occurrences; every other point loses all of them. |
| EquationSolving.FilterDirectionMembers | EquationSolver.ts:379-405 | A point survives exactly when it was stored and agrees with the direction on every axis where both the displacement and the direction component are non-zero. |
| EquationSolving.FilterDirectionIsSubsequence | EquationSolver.ts:379-408 | The surviving points are an order-preserving subsequence of the stored ones. |
| EquationSolving.FilterDirectionKeepsAll | EquationSolver.ts:379-408 | A list whose points all head in the direction is left unchanged. |
| EquationSolving.FilterDirectionIsIdempotent | EquationSolver.ts:369-410 | Filtering twice with the same position and direction equals filtering once. |
| EquationSolving.EquationSolver.constructor | EquationSolver.ts:48-67 | Count 0, empty list, holder [0, 0, 0], zero Regular line, zero circle. |
| EquationSolving.EquationSolver.Flush | EquationSolver.ts:73-87 | Restores every field (count, list, holder, line, circle) to its constructed value. The holder is a fresh array. |
| EquationSolving.EquationSolver.SetLineEquationFromPoints | EquationSolver.ts:89-139 | Stores the line through v1 and v2, which contains both points. Nothing else changes. |
| EquationSolving.EquationSolver.SetLineHolderYfunction | EquationSolver.ts:141-164 | The holder becomes [coB, k, m], where coA and coC are negated once only when coB > 0. |
| EquationSolving.EquationSolver.SetLineHolderXfunction | EquationSolver.ts:166-188 | The holder becomes [1, k, m], where coB and coC are negated once only when coA > 0. |
| EquationSolving.EquationSolver.SetCircleEquation | EquationSolver.ts:190-209 | Stores the negated centre and the squared radius. The general variables then read (−cx, −cy, −r²). |
| EquationSolving.EquationSolver.SolveLineCircleIntersection | EquationSolver.ts:222-338 | Appends exactly the points of `Intersections`; earlier points are untouched. The count grows by the number appended. The holder holds the explicit form of the branch taken. Under `IsSqrt`, every new point lies on the stored line and the stored circle. |
| EquationSolving.EquationSolver.AddIntersectionPoint | EquationSolver.ts:340-345 | Appends one tagged point and changes nothing else. |
| EquationSolving.EquationSolver.GetClosestIntersectionPoint | EquationSolver.ts:347-367 | Returns nothing exactly when no point is stored. Otherwise it returns a stored point, no farther from the origin than any stored point and strictly nearer than every earlier one. The list is not modified. |
| EquationSolving.EquationSolver.FilterPointsWithCorrectDirection | EquationSolver.ts:369-410 | The read/write compaction and truncation leave exactly `FilterDirection` of the old list. The count is untouched. |
| Scenarios.SolveStep | EquationSolver.ts:73-338 | Flush, set the line through both ends and the circle, then solve. The solver is left valid with a fresh holder, holding that line and circle, with exactly the crossings of `Intersections` and a count equal to their number. |
| Scenarios.ProjectileStep | EquationSolver.ts:73-410 | Flush, set the line through both ends and the circle, solve, filter by the step's direction, then take the closest. The result is nothing exactly when no crossing lies ahead of the start; otherwise it is the first nearest such crossing. The solver is left valid with a fresh holder, holding the step's line and circle and exactly the surviving crossings; the count stays the number of crossings before filtering. |
| Scenarios.FilteredStep | EquationSolver.ts:73-410 | Given the crossings and the survivors as ghost values, solving and filtering one step leaves the solver valid and holding exactly the survivors. |
| Scenarios.ClosestOfTwo | EquationSolver.ts:356-363 | Of two points whose second is strictly nearer, the scan's contract forces the second. |
| Scenarios.VerticalStepHitsNearSide | EquationSolver.ts:222-410 | Step (0, −50) → (0, 0) against the circle of radius 3 at the origin: the hit is (0, −3), tagged 0. |
| Scenarios.HorizontalStepHitsBeyondSegment | EquationSolver.ts:222-410 | Any rightward step along y = 0 starting left of x = 17, against the circle of radius 3 at (20, 0): the whole line is solved, so the hit is (17, 0) wherever the step ends, even short of the circle. |
| Scenarios.StepAwayFromCircleMisses | EquationSolver.ts:369-410 | Any leftward step along y = 0 starting left of x = 17, against the same circle: both crossings lie behind the start, so there is no hit. |
| Scenarios.HorizontalStepCrossings | EquationSolver.ts:102-337 | The line through any two points of y = 0 meets the circle of radius 3 at (20, 0) at (23, 0) and then (17, 0). |
| Scenarios.LevelStepFilters | EquationSolver.ts:379-405 | From a start on y = 0 left of 17, heading right keeps both crossings (23, 0) and (17, 0), and heading left drops both. |
| Scenarios.SqrtOf36 | EquationSolver.ts:302 | Every function satisfying `IsSqrt` maps 36 to 6, the premise of the concrete steps. |
| Shields.MinimumHealthFor | CrescentShield.ts:78 | A given non-zero minimum is kept. An absent or zero minimum becomes 0.4·maximumHealth, which for a positive maximum lies strictly between 0 and the maximum. |
| Shields.WholeQuotientIsOne | CrescentShield.ts:83-84 | A ratio r with r·f = f for a non-zero factor f is 1, so the constructor's first ratio (health − min over max − min at full health) is 1. |
| Shields.DamageOf | CrescentShield.ts:213-216 | An absent damage counts as 0, and a present damage counts as its value. |
| Shields.CrescentShield.constructor | CrescentShield.ts:78-84 | minimumHealth is the given value when it is non-zero, else 0.4·maximumHealth. health = maximumHealth and viableHealthFactor = max − min. The ratio is 1 and the intensity 1. The shield starts unbroken and active, with its tree enabled and not destroyed. |
| Shields.CrescentShield.CalculateViableHealthRatio | CrescentShield.ts:202-204 | ratio·factor = health − min. The ratio is 0 exactly at the minimum. It lies in [0, 1] while health is between min and max and the factor is positive. |
| Shields.CrescentShield.Update | CrescentShield.ts:136-168 | Negative health is clamped to 0, then regeneration is added only while health ≤ max. A broken shield is rebuilt only once health reaches the minimum. The ratio is the viable ratio at or above the minimum, else 0. The intensity becomes 0.25 + 0.75·ratio unless the shield is broken. For a non-negative regeneration, health ≥ 0 and health ≤ max + regen are preserved. Tree-enabled = !isBroken is preserved, and destruction is untouched. |
| Shields.CrescentShield.Destroy | CrescentShield.ts:170-185 | The first call sets isBeingDestroyed, clears isActive and destroys the tree once. Later calls change nothing. |
| Shields.CrescentShield.Build | CrescentShield.ts:187-190 | Clears isBroken and enables the tree. |
| Shields.CrescentShield.Break | CrescentShield.ts:192-200 | Sets isBroken and disables the tree. Breaking a broken shield changes nothing. |
| Shields.CrescentShield.AcknowledgeSignal | CrescentShield.ts:208-223 | An inactive signal changes nothing. An active one lowers health by its damage (0 when absent) and breaks the shield once health ≤ 0. Tree-enabled = !isBroken is preserved. |
| Scenarios.BetaShieldLifecycle | EnemyKamikazeBeta.ts:30-39 | Min 200, max 500, regen 2. The first tick at full health pushes the ratio and the intensity above 1. A 600 hit breaks the shield. The next tick leaves it broken with the same intensity. Destroying it twice destroys the tree once. |
| Levels.Reversed | Level.ts:30 | The reversed array has the same length as the original. |
| Levels.Pop | Level.ts:52 | Popping an empty array gives nothing and leaves it empty. Otherwise it gives the last element, and the rest followed by that element is the original array. |
| Levels.ReversedAt | Level.ts:30 | Element k of the reversed array is element \|s\| − 1 − k of the original. |
| Levels.ReversedPrefix | Level.ts:30-34 | The first m elements of the reversed array are the last m original elements, reversed. |
| Levels.PopsOfReversed | Level.ts:30-34 | Popping a reversed copy one `Pop` at a time until it is empty yields the elements in push order. |
| Levels.Level.constructor | Level.ts:19-40 | `waves` is the pushed waves reversed. `currentWave` is the first wave pushed. Popping `standbyWaves` yields the remaining waves in push order. The level is not loaded. |
| Levels.Level.WavesComeInPushOrder | Level.ts:30-55 | In every valid state, the current wave is the pushed wave whose turn it is, and the standby waves pop as the later pushed waves in order. |
| Levels.Level.Update | Level.ts:44-61 | While not loaded, nothing changes. Otherwise the current wave ticks. If it completes and a standby wave is left, exactly one wave is popped and becomes current. If none is left, Won is appended to the end-of-game requests and the completed wave stays current, so every later update while loaded appends Won again. An incomplete wave changes nothing else. `waves` is never modified. |
| Levels.NewLevel | Level.ts:34-39 | Construction fails exactly when no waves are given. Otherwise it yields a valid level starting at the first wave pushed. |
| Levels.Wave.Update | Level.ts:48 | The wave's completion flag becomes set once its tick completes it, and stays set. |

## Left out

- IEEE floating point.
  - The source computes the slope before testing for a vertical line, producing Infinity or NaN there. The model computes the slope only in the non-vertical branch, which is the only place it is used.
  - `discriminant === 0` is exact on reals, with no rounding.
  - A shield whose resolved minimum equals its maximum would give NaN ratios in the source. `Shields.CrescentShield.constructor` requires the two to differ.
- Math.sqrt: the host's square root cannot be defined on reals here, so it is a parameter. The lemmas state only what `IsSqrt` guarantees.
- The lazy singleton getter `EquationSolver.data` is a plain constructor here.
- THREE.js vectors and colours are pairs of reals. The z components, colours and the `verticalDirection` of the shield are dropped.
- These shield parts are rendering effects and are not modelled:
  - The particle system and its updates.
  - The `setTimeout` scene removal.
  - The `parent.group.add` call.
  - `laserFadeMultiplier`, `damageMultiplier` and `isCharging`, which the core never changes.
- `acknowledgeTarget` only logs.
- The `lastSignalNode` argument is not modelled; `acknowledgeSignal` never reads it.
- The collision tree is reduced to `enabled`/`destroyed` flags and a destroy counter. `CollisionTree` and `CollisionProcessor` are not part of this model.
  - Whether the collision code discards a hit that lies beyond a projectile's step is not known here, and the model does not decide it. `Scenarios.HorizontalStepHitsBeyondSegment` shows only that the solver itself reports such a hit.
- Shields.CrescentShield.TreeFollowsBroken is preserved by the shield's own methods, not kept as an object invariant. The Beta enemy disables its shield's tree directly.
- Shields.CrescentShield.constructor: the source's "disable the tree when broken" never runs, because the shield starts unbroken, so it is left out.
- `isActive` belongs to the unseen base class. The model assumes it is true at construction.
- The `elapsedTime` arguments of the update methods are not modelled, because the core does not read them itself. The wave's own update is reduced to a `completes` argument.
- `Level.loadWaves` is a Promise chain, so it is left out. `isLoaded` stays a field that the model never sets.
- `Level.clearEnemyContainers` works on unseen enemy containers, so it is left out.
- Concrete wave classes and difficulty are left out. The constructor takes the pushed waves as a non-empty list. `Levels.NewLevel` models the "at least one wave" error.
- `Core.endGame` is recorded as an appended `GameState`, not a call.
- `rightSideLineCoefficient` is read in `solveLineCircleIntersection` but never used, so it is not modelled.
- Jet.ts, CrescentShieldParticleSystem.ts and EnemyBossWave.ts are rendering and wave content, so they are left out. From EnemyKamikazeAlpha.ts and EnemyKamikazeBeta.ts, only the Beta shield parameters are used, in `Scenarios.BetaShieldLifecycle`.
- Shields.CrescentShield.CalculateViableHealthRatio states the [0, 1] bound only while health ≤ maximumHealth. The source's comment says the ratio is always between 0 and 1, but one tick at full health regenerates past the maximum, and `Scenarios.BetaShieldLifecycle` proves the ratio and intensity then exceed 1.
