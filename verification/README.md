# BeepBoop core, modelled in Dafny

This project models the decision-making core of BeepBoop, a Robocode robot written in Java.
Each turn the robot does four things:

- It tracks **waves**: the expanding circles of possible bullets that start at every shot, whether the robot's own or the enemy's.
- It rates each guess factor (GF) of a wave by **danger**, using several estimators weighted by how well each has predicted past hits:
  - a k-nearest-neighbour model;
  - head-on and current-GF spike models;
  - an anti-pattern-matching flattener.
- It **surfs**: it grows a small tree of movement paths and picks the one whose predicted danger is lowest.
  - The danger accounts for the bullet **shadows** cast by its own bullets.
  - Reachable GF ranges are recorded as the paths are simulated.
- It **shields**: when it is not attacking, it fires bullets meant to hit the enemy's bullets. To aim them, it predicts where the enemy aims with a handful of simple targeting predictors.

The Java doubles become Dafny `real`s. The values Java computes with the standard library and that the model does not reproduce are parameters of the model:

- trigonometry, `Math.sqrt`, `Math.exp`, `Math.log` and `Math.pow`;
- the kd-tree's nearest-neighbour lookups;
- the precise movement `Simulation`;
- `Math.random`.

Where a property needs something of one of these, the lemma says so in its `requires`. For example, it may require that the exponential is positive and monotone, or that the simulation keeps the first step it was asked for.

Mutable Java objects become immutable datatypes and pure functions. A method with a loop is used where the loop is the point. Examples are the kernel update, the guess-factor sweep, the binary search and the offset scoring.

Java's exceptions become `None` of an `Option`. The cases are a null dereference, an index out of bounds and a missing map key. Java's `Math.round`, `(int)` casts, `Math.signum` comparators, `TreeSet` de-duplication by `compareTo`, which entry `PriorityQueue.poll` removes, and `HashMap` iteration are each written out explicitly. The order in which a `PriorityQueue` is streamed is not (see `KNNAimModels.SampleAngles` under "Left out"). For `HashMap` iteration, where the order is unspecified, the model proves that the result does not depend on it.

Module layout follows the Java packages, one module per class:

- `utils`: `MathUtils`, `Ranges`, `MovingAverages`.
- `wave`: `GFBins`, `WaveModel`, `Waves`.
- `game`: `Physics`, `HitRates`, `BotStates`, `GameStates`, `BattleFields`.
- `model`: `WaveKNNs`.
- `aim.models`: `KNNAimModels`.
- `move.models`:
  - `KNNDangerModels`;
  - `SimpleDangerModels`;
  - `APMFlatteners`.
- `move.wave`: `MovementWaves`.
- `move`:
  - `DangerEstimators`, `DangerTrackers` and `DangerEstimation` (the three parts of `DangerEstimator.java`);
  - `ShadowScorers`;
  - `Paths`;
  - `PathSurfers`.
- `shared`: `WaveManagers`.
- `shield`: `Shielding`.
- Shared helpers:
  - `FastTrig` (`normalRelativeAngle`);
  - `Seqs` (filter, insertion and removal on sequences);
  - `Wrappers` (`Option`).

## Model

| member | source | states |
|---|---|---|
| Ranges.Empty | src/kc/mega/utils/Range.java:8-11 | the sentinel range counts as empty, and the first point recorded into it becomes the whole range |
| Ranges.Copy | src/kc/mega/utils/Range.java:13-16 | a copy has the same bounds as its original |
| Ranges.FromUnsorted | src/kc/mega/utils/Range.java:23-25 | the result is ordered and its two bounds are exactly the two given points |
| Ranges.Middle | src/kc/mega/utils/Range.java:31-33 | the middle is equidistant from both bounds and lies inside a non-inverted range |
| Ranges.Update | src/kc/mega/utils/Range.java:35-38 | the updated range contains the point, covers the old range, and each bound is either the old bound or the point |
| Ranges.Merge | src/kc/mega/utils/Range.java:40-43 | the merged range covers both ranges, and each bound comes from one of them |
| Ranges.MergeCommutative | src/kc/mega/utils/Range.java:40-43 | merging does not depend on the order of the two ranges |
| Ranges.MergeAssociative | src/kc/mega/utils/Range.java:40-43 | merging several ranges does not depend on how they are grouped |
| Ranges.MergeIdempotent | src/kc/mega/utils/Range.java:40-43 | merging a range with itself leaves it unchanged |
| Ranges.MergeEmptyIdentity | src/kc/mega/utils/Range.java:8-11 | merging any range within the sentinel bounds into the empty range yields that range |
| Ranges.UpdateIsMergeWithPoint | src/kc/mega/utils/Range.java:35-43 | recording a point is the same as merging with the degenerate range at that point |
| GFBins.BinsTileAxis | src/kc/mega/wave/GFBins.java:13-24 | the bins tile [-1, 1]: each bin's upper edge is the next one's lower edge, and the midpoint lies strictly inside |
| GFBins.GetBin | src/kc/mega/wave/GFBins.java:26-28 | Java's round of (gf+1)/width - 0.5 is the floor of (gf+1)/width |
| GFBins.GetBinIff | src/kc/mega/wave/GFBins.java:26-28 | getBin returns i exactly when the GF lies in bin i's half-open interval |
| GFBins.GetBinInRange | src/kc/mega/wave/GFBins.java:26-28 | every GF in [-1, 1) maps to an existing bin |
| GFBins.GetBinMonotone | src/kc/mega/wave/GFBins.java:26-28 | a larger GF never maps to a lower bin |
| GFBins.BinWeight | src/kc/mega/wave/GFBins.java:30-34 | a bin's weight lies in [0, 1]; it is 0 for a bin the range misses and 1 for a bin it covers |
| GFBins.BinWeightsConserveWidth | src/kc/mega/wave/GFBins.java:30-34 | summed over the bins a range touches, the weights give the range's width in bins |
| GFBins.ExpKernelWidth | src/kc/mega/wave/GFBins.java:36-39 | the kernel width is the number of bins until the weight falls below 2%, rounded to the nearest integer |
| GFBins.UpdateBinsWithExpKernel | src/kc/mega/wave/GFBins.java:41-48 | exactly the bins within the kernel width of the GF's bin gain their kernel weight, and all other bins are unchanged |
| GFBins.KernelPeaksAtGF | src/kc/mega/wave/GFBins.java:46 | a bin whose midpoint is nearer the GF gets at least as much non-negative kernel weight |
| MathUtils.Clip | src/kc/mega/utils/MathUtils.java:5-7 | the result saturates v into [lo, hi] and is v itself inside it; inverted bounds give lo |
| MathUtils.ClipInt | src/kc/mega/utils/MathUtils.java:9-11 | the same saturation for ints |
| MathUtils.NonzeroSign | src/kc/mega/utils/MathUtils.java:13-15 | the sign is +1 exactly for positive values, and -1 otherwise, including at 0 |
| MathUtils.Divide | src/kc/mega/utils/MathUtils.java:29-33 | every entry times the divisor gives back the original entry |
| MathUtils.SumDivide | src/kc/mega/utils/MathUtils.java:29-33 | dividing every entry divides the total |
| MathUtils.Normalize | src/kc/mega/utils/MathUtils.java:35-44 | a zero-total array is left alone; otherwise the result sums to 1 and is proportional to the input |
| MathUtils.NormalizeBounds | src/kc/mega/utils/MathUtils.java:35-44 | normalising non-negative entries keeps every entry in [0, 1] |
| MathUtils.NormalizeIdempotent | src/kc/mega/utils/MathUtils.java:35-44 | normalising a normalised array changes nothing |
| MathUtils.Softmax | src/kc/mega/utils/MathUtils.java:46-54 | with a positive exponential, the weights are in (0, 1] and sum to 1 |
| MathUtils.SoftmaxMonotone | src/kc/mega/utils/MathUtils.java:46-54 | with a monotone exponential, a larger logit never gets a smaller weight |
| MathUtils.AddArrays | src/kc/mega/utils/MathUtils.java:56-62 | the result has the first array's length, and each entry is the sum of the corresponding entries |
| MathUtils.SumAddArrays | src/kc/mega/utils/MathUtils.java:56-62 | the total of the sum is the sum of the totals over the first array's length |
| Physics.Decel | src/kc/mega/game/Physics.java:14-16 | braking takes off between 1 and 2 units of speed per tick |
| Physics.NextVelocity | src/kc/mega/game/Physics.java:7-12 | driving keeps the speed within 8, and accelerating never moves the velocity against the requested direction; braking never reverses the velocity, and it either stops the bot or takes off exactly one braking step |
| Physics.Brake | src/kc/mega/game/Physics.java:7-10 | braking tick after tick with nextVelocity(v, 0) never raises the speed; Physics.BrakeStops says when it reaches 0 |
| Physics.BrakeStops | src/kc/mega/game/Physics.java:7-10 | braking for at least as many ticks as the speed stops the bot |
| Physics.BrakeStopsWithinEightTicks | src/kc/mega/game/Physics.java:7-10 | a bot at any legal velocity stops after braking for 8 ticks |
| Physics.MaxTurn | src/kc/mega/game/Physics.java:18-20 | at legal speeds the turn limit lies between 4 and 10 degrees per tick, in radians |
| Physics.TurnIncrement | src/kc/mega/game/Physics.java:22-25 | a turn request is cut to the turn limit, and a request within the limit is granted unchanged |
| Physics.BulletSpeed | src/kc/mega/game/Physics.java:27-29 | bullet speed is between 11 and 19.7, and it is 20 - 3*power for legal powers |
| Physics.BulletDamage | src/kc/mega/game/Physics.java:31-33 | damage is 4*power up to power 1, and 6*power - 2 above it |
| Physics.BulletDamageCapped | src/kc/mega/game/Physics.java:35-37 | damage never exceeds the target's energy, and it is either that energy or the full damage |
| Physics.GunHeat | src/kc/mega/game/Physics.java:39-41 | firing heats the gun by 1 + power/5, between 1.02 and 1.6 for legal powers |
| Physics.HeavierBulletsTradeSpeedForDamage | src/kc/mega/game/Physics.java:27-33 | a heavier legal bullet is never faster and never does less damage |
| MovingAverages.Fresh | src/kc/mega/utils/MovingAverage.java:9-11 | a new average has seen no samples and holds 0 |
| MovingAverages.Update | src/kc/mega/utils/MovingAverage.java:13-16 | one more sample is counted, and for a rate in [0, 1] the new value lies between the sample and the old value |
| MovingAverages.FreshHasConstantHistory | src/kc/mega/utils/MovingAverage.java:9-11 | a new average is consistent with any constant input |
| MovingAverages.UpdateKeepsConstantHistory | src/kc/mega/utils/MovingAverage.java:13-16 | feeding the same sample again keeps the history constant |
| MovingAverages.Get | src/kc/mega/utils/MovingAverage.java:18-20 | get divides the value by 1 - rate^max(1, n), which lies in (0, 1] for a rate in [0, 1), so it never divides by zero; the lemmas below state what the result means |
| MovingAverages.ConstantInputReadsBack | src/kc/mega/utils/MovingAverage.java:18-20 | the bias correction is exact: after n >= 1 equal samples, get returns that sample |
| MovingAverages.FreshReadsZero | src/kc/mega/utils/MovingAverage.java:18-20 | before any sample, get returns 0 and does not divide by zero |
| MovingAverages.GetPositive | src/kc/mega/utils/MovingAverage.java:18-20 | a positive value reads as a positive average |
| MovingAverages.GetMonotone | src/kc/mega/utils/MovingAverage.java:18-20 | with the same rate and count, the larger value reads as the larger average |
| HitRates.Init | src/kc/mega/game/HitRateTracker.java:19-21 | a new round starts with no damage dealt in it, and everything else is kept |
| HitRates.Clear | src/kc/mega/game/HitRateTracker.java:23-30 | every statistic is reset except the approximate score |
| HitRates.HitRate | src/kc/mega/game/HitRateTracker.java:45-47 | the rate is hits per passed shot, non-negative, at most 1 while hits do not outnumber passed shots, and the bare hit count before any shot has passed |
| HitRates.EstimateHitRate | src/kc/mega/game/HitRateTracker.java:37-43 | the estimate always lies in [0.001, 0.999]; before any shot has passed it is the prior (hits+1)/12, clipped |
| HitRates.CIWidth | src/kc/mega/game/HitRateTracker.java:57-67 | the confidence half-width is never negative |
| HitRates.MinHitRate | src/kc/mega/game/HitRateTracker.java:49-51 | the lower bound lies between 0 and the hit rate |
| HitRates.MaxHitRate | src/kc/mega/game/HitRateTracker.java:53-55 | the upper bound is at most 1 and at least the hit rate while hits do not outnumber passed shots |
| HitRates.HitRateInOwnBand | src/kc/mega/game/HitRateTracker.java:69-71 | any band containing the observed hit rate counts as in bounds |
| HitRates.HitRateOutsideUnitNeverInBounds | src/kc/mega/game/HitRateTracker.java:69-71 | a band entirely above 1 or below 0 is never in bounds |
| HitRates.LogShot | src/kc/mega/game/HitRateTracker.java:93-95 | only the fired-shot count grows, by one |
| HitRates.LogShotPassed | src/kc/mega/game/HitRateTracker.java:97-100 | one more passed shot, with the escape-angle weight of its power added, and the hit and damage counts kept |
| HitRates.LogHit | src/kc/mega/game/HitRateTracker.java:102-106 | one more hit, with its damage added to both the total and the round total |
| HitRates.HitWithPassedShotKeepsRateBelowOne | src/kc/mega/game/HitRateTracker.java:45-47 | logging each hit with its passed shot keeps the hit rate at most 1 |
| HitRates.OnRoundEnd | src/kc/mega/game/HitRateTracker.java:108-111 | the score gains 1.2 times the round damage plus 60 for a win, and the round damage for a loss; nothing else changes |
| HitRates.WinningScoresAtLeastLosing | src/kc/mega/game/HitRateTracker.java:108-111 | a win scores at least 60 more than a loss would |
| BotStates.AsPredictState | src/kc/mega/game/BotState.java:49-51 | the kinematic part of the state is kept exactly |
| BotStates.NextState | src/kc/mega/game/BotState.java:42-47 | the next state takes the predicted motion, cools the gun by one step, keeps energy and the fire record, and advances time by one tick |
| BotStates.RollForwardBookkeeping | src/kc/mega/game/BotState.java:42-47 | after k ticks the gun has cooled by k steps, time has advanced by k, and energy and the fire record are unchanged, however the bot moved |
| BotStates.UpdateFromFire | src/kc/mega/game/BotState.java:53-58 | firing sets the gun heat for the power, costs the power in energy, records the fire time and counts the shot, leaving the motion alone |
| BotStates.UpdateFromBulletHit | src/kc/mega/game/BotState.java:60-62 | a hit returns three times the power in energy and changes nothing else |
| BotStates.UpdateFromHitByBullet | src/kc/mega/game/BotState.java:64-66 | being hit never leaves negative energy; it removes the full damage or leaves 0, and changes nothing else |
| BotStates.HitByBulletLosesCappedDamage | src/kc/mega/game/BotState.java:64-66 | the energy lost equals the damage capped at the energy the bot had |
| BotStates.GunHeatAfterFiring | src/kc/mega/game/BotState.java:42-58 | k ticks after firing, the heat is the shot's heat minus k cooling steps |
| GameStates.UpdateStates | src/kc/mega/game/GameState.java:192-197 | the new state goes in front, every older state moves back one place, and the history is capped at 100 states |
| GameStates.GetState | src/kc/mega/game/GameState.java:179-190 | tick <= 0 reads -tick ticks back in the history and tick > 0 reads tick-1 in the future, both clamped to the last entry; an empty list gives the current state, or None when that is null |
| GameStates.GetStateAfterUpdate | src/kc/mega/game/GameState.java:179-197 | after a state is recorded, reading tick 0 returns that state |
| GameStates.OnHitRobot | src/kc/mega/game/GameState.java:162-172 | with no history nothing changes; otherwise both bots lose 0.6 energy, in the current states and in the history heads they alias, the collision time is recorded for whoever was at fault, and nothing else changes (None when a state is still null) |
| GameStates.OnHitRobotKeepsAliasing | src/kc/mega/game/GameState.java:199-214 | the current states stay the objects at the head of their histories through a collision, so reading tick 0 afterwards sees the lowered energy |
| GameStates.OnRoundEnd | src/kc/mega/game/GameState.java:174-177 | this bot's tracker scores the round as won or lost and the enemy's as the opposite; nothing else changes |
| GameStates.AddPredictedFutureStates | src/kc/mega/game/GameState.java:233-244 | the future is filled up to exactly 10 states, existing predictions are kept, and each new state is predicted from the two states before it |
| GameStates.PredictedTimesAreConsecutive | src/kc/mega/game/GameState.java:233-244 | each added prediction is one tick after the state before it |
| GameStates.UpdateFromBulletHitAsWritten | src/kc/mega/game/GameState.java:246-252 | as written, the logged damage is capped by the target's energy after the hit has already been applied |
| GameStates.AsWrittenUnderLogsDamage | src/kc/mega/game/GameState.java:246-252 | a target on 5 energy hit by a power-1 bullet loses 4 energy, but only 1 is logged |
| GameStates.UpdateFromBulletHit | src/kc/mega/game/GameState.java:246-252 | corrected: the logged damage equals the energy the target actually lost; the shooter regains 3*power; one hit and one passed shot are counted |
| BattleFields.MirrorLocation | src/kc/mega/game/BattleField.java:53-55 | the mirror image is the reflection through the centre of the field |
| BattleFields.MirrorInvolution | src/kc/mega/game/BattleField.java:53-55 | mirroring twice gives back the original point |
| BattleFields.WallCollisionCheck | src/kc/mega/game/BattleField.java:57-65 | a state inside the field is unchanged; an outside state is clamped to [18, W-18] x [18, H-18] and stopped, with the same heading and time |
| BattleFields.WallCollisionCheckSettles | src/kc/mega/game/BattleField.java:57-65 | on a field at least one bot wide, the check is idempotent: checking a checked state again changes nothing |
| BattleFields.WallDistance | src/kc/mega/game/BattleField.java:67-70 | the distance is one of the four wall gaps and no larger than any of them |
| BattleFields.MirrorKeepsWallDistance | src/kc/mega/game/BattleField.java:53-70 | a point and its mirror image are equally far from the nearest wall |
| BattleFields.OrbitalWallDistanceAsWritten | src/kc/mega/game/BattleField.java:72-89 | as written, on a field that is open up to some angle, the search ends one step from either end of the interval, wherever the wall is |
| BattleFields.OrbitalWallDistance | src/kc/mega/game/BattleField.java:72-89 | corrected: the result is in [0, 1.5], and the angle found is within one search step of the angle at which the field ends |
| WaveModel.FirstMoveDirection | src/kc/mega/wave/Wave.java:72-79 | the direction is 0 exactly when every velocity in the history is 0, and otherwise it is the sign of the first nonzero velocity, every earlier one being 0 |
| WaveModel.Create | src/kc/mega/wave/Wave.java:60-85 | a new wave is well formed and has empty shadows, the bullet speed for its power, no hit offset, an empty visit range, and escape angles of at least 0.001; with no enemy movement it keeps the last orbit direction |
| WaveModel.GetGF | src/kc/mega/wave/Wave.java:105-110 | a guess factor is always clipped to within 0.99999 |
| WaveModel.GetOffset | src/kc/mega/wave/Wave.java:126-130 | the offset of a GF: the GF signed by the orbit direction times the escape angle of that side; WaveModel.GFOffsetRoundTrip and WaveModel.OffsetGFRoundTrip pair it with getGF |
| WaveModel.GetBearing | src/kc/mega/wave/Wave.java:126-134 | the bearing is the wave's absolute bearing plus the offset of the guess factor |
| WaveModel.GFOffsetRoundTrip | src/kc/mega/wave/Wave.java:105-130 | a guess factor inside the clip limits, with its offset in [-pi, pi), maps to an offset and back to itself |
| WaveModel.OffsetGFRoundTrip | src/kc/mega/wave/Wave.java:105-130 | an offset whose guess factor is not clipped maps back to the normalised offset |
| WaveModel.GetGFRange | src/kc/mega/wave/Wave.java:112-116 | the GF range is sorted, within the clip limits, and its ends are the guess factors of the two offsets |
| WaveModel.HitGF | src/kc/mega/wave/Wave.java:118-120 | the hit guess factor is within the clip limits |
| WaveModel.HitGFRange | src/kc/mega/wave/Wave.java:122-124 | the hit GF range is sorted and within the clip limits |
| WaveModel.Span | src/kc/mega/wave/Wave.java:314-317 | updating a range with every intercept offset gives a range that contains them all, and each of its bounds is an old bound or one of the offsets |
| WaveModel.GetFoam | src/kc/mega/wave/Wave.java:252-320 | a wave not yet launched is MIDAIR, and one beyond the bot is PASSED; a range is reported exactly while BREAKING or WILL_PASS_THIS_TICK, and it covers every intercept; WILL_PASS_THIS_TICK holds exactly when the next radius clears the farthest corner |
| WaveModel.TicksUntilBreak | src/kc/mega/wave/Wave.java:236-239 | with truncating casts, the ticks until break plus the ticks since firing is never negative |
| WaveModel.UpdateAsWritten | src/kc/mega/wave/Wave.java:87-99 | as written, the status is the foam's, and a hit offset once set is kept |
| WaveModel.PassedWaveAlwaysHasOffsetAsWritten | src/kc/mega/wave/Wave.java:95-97 | as written, a wave that passes always gets a hit offset below 100, namely 0 when it never broke over the bot |
| WaveModel.Update | src/kc/mega/wave/Wave.java:87-99 | corrected: the visit range grows only while breaking, to cover the foam; a hit offset is set at most once, from the visit range; nothing else in the wave changes |
| WaveModel.UpdateRecordsOnlyObservedOffsets | src/kc/mega/wave/Wave.java:95-97 | corrected: a wave that passes without breaking keeps the "no data" offset, and one that broke gets an offset inside the range it covered |
| WaveModel.Combos | src/kc/mega/wave/Wave.java:149-156 | the loop examines the step pairs in order, never (-1, -1), ending with (0, 0) |
| WaveModel.Classify | src/kc/mega/wave/Wave.java:157-194 | a crossing step yields a sorted, clipped GF range, and it counts as same-tick exactly when the bullet and wave offsets are equal |
| WaveModel.ShadowGuardAlwaysHolds | src/kc/mega/wave/Wave.java:195 | the guard before the bin loop is always true for a sorted range |
| WaveModel.CastShadow | src/kc/mega/wave/Wave.java:199-205 | only the bins between the range's end bins change; a same-tick step raises a bin toward 1 without passing it, and other steps add at most 0.5 |
| WaveModel.ShadowBin | src/kc/mega/wave/Wave.java:200-204 | one bin saturates toward 1 on a same-tick step and rises by at most 0.5 otherwise |
| WaveModel.PassedTickCastsNoShadow | src/kc/mega/wave/Wave.java:146-219 | on a tick where the bullet has passed, no step casts a shadow |
| WaveModel.ShadowsForTimeBounded | src/kc/mega/wave/Wave.java:146-208 | a tick's new-shadow buffer stays within [0, 1] |
| WaveModel.Accumulate | src/kc/mega/wave/Wave.java:210-216 | merging new shadows multiplies the unshadowed parts, and bins with no new shadow are unchanged |
| WaveModel.AccumulateBounds | src/kc/mega/wave/Wave.java:210-216 | merging keeps shadows within [0, 1], never lowers one, and keeps a full shadow full |
| WaveModel.AccumulateCommutes | src/kc/mega/wave/Wave.java:210-216 | the order in which two ticks' shadows are merged does not matter |
| WaveModel.ShadowTicks | src/kc/mega/wave/Wave.java:221-230 | the loop ends with a tick that casts no shadow; shadows stay in [0, 1] and never fall, and if no tick cast a shadow they are unchanged |
| WaveModel.AddBulletShadowsAsWritten | src/kc/mega/wave/Wave.java:221-230 | addBulletShadows as written, OR-ing in the "no shadow this tick" flag; its result is stated by WaveModel.AddBulletShadowsAsWrittenAlwaysTrue |
| WaveModel.AddBulletShadowsAsWrittenAlwaysTrue | src/kc/mega/wave/Wave.java:221-230 | as written, addBulletShadows always reports that the shadows changed |
| WaveModel.AsWrittenReportsChangeWithoutShadow | src/kc/mega/wave/Wave.java:221-230 | a bullet that passes on the first tick examined changes no shadow, yet as written a change is reported; the corrected result reports none |
| WaveModel.AddBulletShadows | src/kc/mega/wave/Wave.java:221-230 | corrected: a change is reported only when some tick cast a shadow; otherwise the shadows are unchanged; they stay in [0, 1] and never fall |
| WaveModel.AddBulletShadowsToWave | src/kc/mega/wave/Wave.java:232-234 | only the wave's shadows change, and the wave stays well formed |
| Waves.Clear | src/kc/mega/wave/Waves.java:19-21 | every wave is dropped, and the statuses of the last update remain |
| Waves.Add | src/kc/mega/wave/Waves.java:23-25 | the wave is appended after the existing waves, which keep their order |
| Waves.RemoveFirst | src/kc/mega/wave/Waves.java:27-29 | an absent wave leaves the list unchanged; a present one removes exactly one element, and nothing new appears |
| Waves.Remove | src/kc/mega/wave/Waves.java:27-29 | removing a wave shortens the list by one exactly when the wave is present, and keeps the statuses |
| Waves.RemoveUnique | src/kc/mega/wave/Waves.java:27-29 | when wave identities are unique, removal leaves exactly the other waves, in order |
| Waves.GetBulletWaves | src/kc/mega/wave/Waves.java:35-37 | the result holds exactly the waves that carry a bullet |
| Waves.UpdatedWaves | src/kc/mega/wave/Waves.java:42-43 | every wave is updated on its own, with its own view of the enemy |
| Waves.RecordStatuses | src/kc/mega/wave/Waves.java:40-44 | there is one status per wave and none for anything else; the last wave's status is its update's |
| Waves.RecordStatusesPerWave | src/kc/mega/wave/Waves.java:40-44 | with unique identities, each wave's recorded status is the status of its own update |
| Waves.UpdateAll | src/kc/mega/wave/Waves.java:39-55 | (corrected: built on the corrected Wave.update) the kept waves are the updated waves that did not pass, in order; the returned waves are the passed ones that recorded a hit offset, in order; a status is recorded for exactly the waves that were present |
| Waves.UpdateAllAsWritten | src/kc/mega/wave/Waves.java:39-55 | as written, on top of the as-written Wave.update: the kept waves are the updated waves that did not pass, in list order, the returned ones the passed waves with an offset below 100, in list order, and statuses are recorded for exactly the waves present |
| Waves.UpdateAllAsWrittenKeepsUnpassed | src/kc/mega/wave/Waves.java:42-53 | as written, every wave whose update did not reach PASSED stays in the list, and every passed one with an offset below 100 is returned |
| Waves.UpdateAllAsWrittenKeepsOnlyUnpassed | src/kc/mega/wave/Waves.java:42-53 | as written, every kept wave is the update of a wave that did not pass, and every returned wave the update of one that passed |
| Waves.UpdateAllAsWrittenReturnsEveryPassed | src/kc/mega/wave/Waves.java:43-50 | as written, every wave that passes with no offset recorded yet is returned, so the passed-with-no-data branch never runs |
| Waves.UnseenPassedWaveReturnedOnlyAsWritten | src/kc/mega/wave/Waves.java:43-50 | a wave that passes without the enemy ever being inside it is returned with offset 0 as written, and is not returned with the correction |
| Waves.UpdateKeepsUnpassed | src/kc/mega/wave/Waves.java:39-55 | every wave that did not pass is kept, and every passed wave with an offset is returned |
| Waves.UpdateKeepsOnlyUnpassed | src/kc/mega/wave/Waves.java:39-55 | every kept wave is the update of a wave that did not pass |
| Waves.UpdateReturnsOnlyRecordedOffsets | src/kc/mega/wave/Waves.java:45-51 | every returned wave has a hit offset below 100 |
| Waves.GetHitWave | src/kc/mega/wave/Waves.java:71-81 | the result is the first bullet wave that has reached the bot with a matching power, marked as hit and written back; with no match the result is null and nothing changes |
| Waves.GetBulletHitBulletWave | src/kc/mega/wave/Waves.java:83-96 | the result is the first bullet wave with a matching power whose radius one or two ticks ago meets the collision point; it loses its bullet and is marked as collided; with no match nothing changes |
| Waves.CollidedWaveLeavesBulletWaves | src/kc/mega/wave/Waves.java:83-96 | after a collision there is one bullet wave fewer, so the same bullet cannot be matched twice |
| MovementWaves.SurfableInOrder | src/kc/mega/move/wave/MovementWaves.java:17-19 | the surfable waves are exactly the unhit bullet waves whose status is at most BREAKING |
| MovementWaves.GetSurfableWaves | src/kc/mega/move/wave/MovementWaves.java:17-25 | the result is the surfable waves, each exactly once, sorted by break time and, on ties, by larger power first |
| MovementWaves.SurfableOrderIsStable | src/kc/mega/move/wave/MovementWaves.java:17-25 | waves already in surfing order keep their order |
| MovementWaves.NoDangerousWavesExist | src/kc/mega/move/wave/MovementWaves.java:27-29 | the answer is true exactly when every surfable wave is virtual |
| MovementWaves.AddShadows | src/kc/mega/move/wave/MovementWaves.java:31-35 | only the wave itself gains the bullet's shadow; it joins the updated set when the reported result is true, and it is always there when its shadows changed |
| MovementWaves.AddShadowsAsWritten | src/kc/mega/move/wave/MovementWaves.java:31-35 | with the as-written shadow result, the waves (shadows and precise shadow) are the same as with the corrected one |
| MovementWaves.AddShadowsAsWrittenAlwaysMarks | src/kc/mega/move/wave/MovementWaves.java:31-35 | as written, every wave a bullet is shadowed onto is marked updated, even when nothing changed |
| WaveManagers.OnRoundStart | src/kc/mega/shared/WaveManager.java:15-18 | both wave lists are emptied |
| WaveManagers.GetBullets | src/kc/mega/aim/wave/AimWaves.java:11-13 | the result holds our bullet waves' bullets, one per wave, in order |
| WaveManagers.AddAllShadows | src/kc/mega/shared/WaveManager.java:36-40 | shadows from many bullets stay in [0, 1], never fall, and are unchanged when no bullet changed them |
| WaveManagers.OnFire | src/kc/mega/shared/WaveManager.java:30-34 | (corrected: built on the corrected addBulletShadows) every enemy bullet wave takes the new bullet's shadow and other waves are untouched; the updated set gains exactly the waves whose shadows changed |
| WaveManagers.OnEnemyFire | src/kc/mega/shared/WaveManager.java:36-40 | (corrected: built on the corrected addBulletShadows) only the new wave takes our bullets' shadows, which stay in [0, 1]; it is marked updated if its shadows changed |
| WaveManagers.OnFireAsWritten | src/kc/mega/shared/WaveManager.java:30-34 | as written: every enemy bullet wave is shadowed as with the correction, and every one of them is marked updated, shadowed or not |
| WaveManagers.AddAllShadowsAsWritten | src/kc/mega/shared/WaveManager.java:36-40 | as written, the sequence of addShadows calls reports a change exactly when there is at least one bullet |
| WaveManagers.AddAllShadowsAsWrittenSameShadows | src/kc/mega/wave/Wave.java:221-230 | the as-written and corrected calls leave the same shadows and precise shadow; only the flag differs |
| WaveManagers.OnEnemyFireAsWritten | src/kc/mega/shared/WaveManager.java:36-40 | as written, the new wave is marked exactly when it was already marked or we have a bullet in the air |
| WaveManagers.OnEnemyFireAsWrittenSameWaves | src/kc/mega/shared/WaveManager.java:36-40 | the as-written and corrected onEnemyFire leave the same waves and statuses |
| WaveManagers.Rebuilt | src/kc/mega/shared/WaveManager.java:20-28 | a rebuilt wave's shadows restart from zero and stay in [0, 1], and nothing else in the wave changes |
| WaveManagers.OnBulletHitBullet | src/kc/mega/shared/WaveManager.java:20-28 | every enemy bullet wave is rebuilt from our remaining bullets and marked updated, and every other wave is untouched |
| WaveKNNs.JavaIntCast | src/kc/mega/model/WaveKNN.java:83 | the int cast truncates toward zero inside the int range and saturates outside it |
| WaveKNNs.AddPoint | src/kc/mega/model/WaveKNN.java:70-72 | the new point is the newest, the oldest points are dropped to stay within the size limit, and the remaining points keep their order |
| WaveKNNs.GetNumNeighbors | src/kc/mega/model/WaveKNN.java:82-84 | the neighbourhood is never larger than the maximum, at least 5 when the maximum allows, and otherwise the data size over the divider |
| WaveKNNs.NumNeighborsGrowWithData | src/kc/mega/model/WaveKNN.java:82-84 | with a positive divider, more data never shrinks the neighbourhood |
| WaveKNNs.TrainedTreeIsEmptyAsNamed | src/kc/mega/model/WaveKNN.java:86-88 | isEmpty is true exactly when the tree holds a point, so a trained tree reports empty and an empty tree does not |
| WaveKNNs.Embed | src/kc/mega/model/WaveKNN.java:94-100 | there is one coordinate per feature, each computed from that feature's parameters (scale, or scale with offset and power) |
| WaveKNNs.LinearEmbeddingDistance | src/kc/mega/model/WaveKNN.java:94-100 | with linear features, the tree's Manhattan distance between embeddings is the scale-weighted feature distance |
| WaveKNNs.LinearEmbedIsScaled | src/kc/mega/model/WaveKNN.java:94-100 | with only one-parameter features, the embedding is coordinate-wise scaling of the features |
| WaveKNNs.MaxOf | src/kc/mega/model/WaveKNN.java:136-142 | the running maximum is at least every logit and equal to one of them |
| WaveKNNs.GetWeights | src/kc/mega/model/WaveKNN.java:133-145 | there is one weight per neighbour, each in (0, 1], and the weights sum to 1 |
| WaveKNNs.NearerNeighborWeighsMore | src/kc/mega/model/WaveKNN.java:133-145 | with a negative distance scale, a nearer neighbour never weighs less |
| KNNDangerModels.Train | src/kc/mega/move/models/KNNDangerModel.java:22-25 | training adds one point, labelled with the wave's hit GF at its embedding, within the tree's size limit |
| KNNDangerModels.BinMassOfUnhitBin | src/kc/mega/move/models/KNNDangerModel.java:35-37 | a bin that no neighbour's label falls into gets no danger |
| KNNDangerModels.NeighborLabelsInRange | src/kc/mega/move/models/KNNDangerModel.java:36 | every neighbour's label indexes an existing bin, so the scatter cannot go out of bounds |
| KNNDangerModels.Scatter | src/kc/mega/move/models/KNNDangerModel.java:35-37 | each bin holds the total weight of the neighbours labelled in it, and no weight is lost |
| KNNDangerModels.GetDangers | src/kc/mega/move/models/KNNDangerModel.java:27-39 | with no neighbours every bin is 0; otherwise the dangers are the neighbours' weights gathered by bin, only labelled bins are nonzero, and the dangers sum to 1 |
| APMFlatteners.OnTurn | src/kc/mega/move/models/APMFlattener.java:22-29 | the new symbol goes first, the older history follows in order, and the history is cut to 30000 symbols |
| APMFlatteners.FirstOccurrence | src/kc/mega/move/models/APMFlattener.java:43 | the result is the first position at or after the start where the pattern occurs, or -1 when there is none |
| APMFlatteners.IndexOf | src/kc/mega/move/models/APMFlattener.java:43 | String.indexOf: a found position holds the pattern, nothing earlier from the start does, and -1 means no occurrence at all |
| APMFlatteners.FindMatches | src/kc/mega/move/models/APMFlattener.java:43-54 | the inner loop finds at most the needed number of matches, each at a positive position where the pattern occurs |
| APMFlatteners.FindMatchesAreSuccessive | src/kc/mega/move/models/APMFlattener.java:43-54 | the matches are successive indexOf answers, each search starting one past the previous match, so every occurrence between the start and the last match is among them |
| APMFlatteners.MatchLoop | src/kc/mega/move/models/APMFlattener.java:40-56 | when the loop completes it has exactly the needed matches, each a prefix of the pattern occurring in the history, with prefixes never getting longer |
| APMFlatteners.EmptyPatternAlwaysMatches | src/kc/mega/move/models/APMFlattener.java:41-43 | with a positive start, the empty prefix supplies every match still needed |
| APMFlatteners.MatchLoopSucceeds | src/kc/mega/move/models/APMFlattener.java:40-56 | with a positive start, the loop always finishes before the prefix length goes negative |
| APMFlatteners.Vote | src/kc/mega/move/models/APMFlattener.java:52-53 | the k-th match's vote is the integer quotient of the match length by k, between 0 and the match length |
| APMFlatteners.Scatter | src/kc/mega/move/models/APMFlattener.java:52-53 | the dangers are non-negative and add up to the total of the votes |
| APMFlatteners.GetDangers | src/kc/mega/move/models/APMFlattener.java:31-58 | with at most 64 symbols of history every bin is 0; otherwise the dangers are non-negative and total the votes of min(10, length/10) matches, and there is a result exactly when the matching loop completes |
| APMFlatteners.GetDangersDefined | src/kc/mega/move/models/APMFlattener.java:40-56 | for a wave fired less than 64 ticks in the future, the call never throws and uses exactly min(10, length/10) matches |
| SimpleDangerModels.BinOf | src/kc/mega/move/models/SimpleDangerModels.java:30 | a clipped guess factor always has an existing bin |
| SimpleDangerModels.HOTBaseline | src/kc/mega/move/models/SimpleDangerModels.java:36-38 | the baseline of every bin is positive |
| SimpleDangerModels.HOTBins | src/kc/mega/move/models/SimpleDangerModels.java:30-35 | the four head-on guesses each land in an existing bin |
| SimpleDangerModels.HOTSpikes | src/kc/mega/move/models/SimpleDangerModels.java:29-35 | each bin holds 1 from the first guess and 0.5 from each later guess that lands in it |
| SimpleDangerModels.HOTSpikesTotal | src/kc/mega/move/models/SimpleDangerModels.java:29-35 | wherever the guesses land, the spikes total 2.5 |
| SimpleDangerModels.HOTDangers | src/kc/mega/move/models/SimpleDangerModels.java:27-40 | each bin holds its positive baseline plus the votes of the guesses landing in it |
| SimpleDangerModels.TwoWrites | src/kc/mega/move/models/SimpleDangerModels.java:54-57 | the second write wins: its bin holds 0.5, the first bin holds 1 only when the bins differ, and every other bin is 0 |
| SimpleDangerModels.CurrentGFDangers | src/kc/mega/move/models/SimpleDangerModels.java:52-58 | the mirrored GF's bin holds 0.5; the current GF's bin holds 1 unless the two bins coincide; every other bin is 0 |
| SimpleDangerModels.OwnBinIsNearest | src/kc/mega/wave/GFBins.java:26-28 | a GF's own bin has the nearest midpoint of all bins |
| SimpleDangerModels.SingleAngleDangers | src/kc/mega/move/models/SimpleDangerModels.java:69-75 | the dangers are a weight-1 kernel of rate 20 around the aimed GF; with a positive monotone exponential they are non-negative and peak at the aimed GF's bin |
| KNNAimModels.HasData | src/kc/mega/aim/models/KNNAimModel.java:29-31 | the model has data exactly when its tree holds a point |
| KNNAimModels.Train | src/kc/mega/aim/models/KNNAimModel.java:33-36 | training adds one point, labelled with the wave's hit GF range at its embedding, and keeps the last sweep |
| KNNAimModels.TrainedModelHasData | src/kc/mega/aim/models/KNNAimModel.java:29-36 | after training the model has data |
| KNNAimModels.BuildEdges | src/kc/mega/aim/models/KNNAimModel.java:51-58 | each range gives a start edge with +weight and an end edge with -weight, both carrying the range's middle |
| KNNAimModels.BuiltEdgesCancel | src/kc/mega/aim/models/KNNAimModel.java:51-58 | the edge weights sum to 0 |
| KNNAimModels.HeightPermutation | src/kc/mega/aim/models/KNNAimModel.java:59 | sorting the edges does not change their total weight |
| KNNAimModels.SweepEdges | src/kc/mega/aim/models/KNNAimModel.java:60-70 | each edge's probability is the running height over the total weight, and the best index is the first edge where the height reaches its positive maximum |
| KNNAimModels.BestIsNotLast | src/kc/mega/aim/models/KNNAimModel.java:71 | since the sweep ends at height 0, the best edge is never the last one, so reading the edge after it is in bounds |
| KNNAimModels.BestIndexUnique | src/kc/mega/aim/models/KNNAimModel.java:60-70 | the best index is determined uniquely |
| KNNAimModels.AimEdges | src/kc/mega/aim/models/KNNAimModel.java:51-59 | the edge array is sorted by GF and is a permutation of the built edges |
| KNNAimModels.NeighborLabelsInRange | src/kc/mega/aim/models/KNNAimModel.java:53 | every neighbour's label is a sorted range within the clip limits |
| KNNAimModels.EdgesInRange | src/kc/mega/aim/models/KNNAimModel.java:51-59 | every edge lies within the clip limits |
| KNNAimModels.SweepAim | src/kc/mega/aim/models/KNNAimModel.java:59-71 | the aim is the midpoint between the best edge and the next one, inside the clip limits |
| KNNAimModels.GetAimGF | src/kc/mega/aim/models/KNNAimModel.java:42-72 | with no neighbours the aim is 0 and nothing changes; otherwise the sorted edges and their probabilities are stored and the aim is the middle of the densest step; with one neighbour it is the middle of its range |
| KNNAimModels.SingleNeighborAimsAtMiddle | src/kc/mega/aim/models/KNNAimModel.java:42-72 | with one neighbour the aim is the middle of its range, and the probabilities are 1 then 0 |
| KNNAimModels.HalfTowardZero | src/kc/mega/aim/models/KNNAimModel.java:39 | Java's int halving truncates toward zero |
| KNNAimModels.GetAimGFFast | src/kc/mega/aim/models/KNNAimModel.java:38-40 | the fast aim uses at most half the usual neighbours, and otherwise behaves like getAimGF |
| KNNAimModels.BinarySearch | src/kc/mega/aim/models/KNNAimModel.java:102 | a found index holds the key; otherwise -(insertion point)-1 is returned, with the insertion point inside the searched interval |
| KNNAimModels.Search | src/kc/mega/aim/models/KNNAimModel.java:102 | the result is non-negative exactly when some edge holds the key |
| KNNAimModels.ScoreAimGFAsWritten | src/kc/mega/aim/models/KNNAimModel.java:98-111 | as written, the score is undefined (index -2 is read) exactly when the GF equals the first edge |
| KNNAimModels.ScoreAimGF | src/kc/mega/aim/models/KNNAimModel.java:98-111 | corrected: the score is 0.5 with no sweep, 0 before the first edge, and otherwise the probability of the sweep step holding the GF |
| KNNAimModels.ScoreAsWrittenAgreesWhenDefined | src/kc/mega/aim/models/KNNAimModel.java:98-111 | wherever the as-written score is defined it equals the corrected one |
| KNNAimModels.ScoreAsWrittenThrowsOnFirstEdge | src/kc/mega/aim/models/KNNAimModel.java:102-110 | a GF exactly at the first edge makes the as-written score fail, while the corrected score is 1 |
| KNNAimModels.PollIndex | src/kc/mega/aim/models/KNNAimModel.java:79-84 | poll takes the candidate that the comparator places first |
| KNNAimModels.Select | src/kc/mega/aim/models/KNNAimModel.java:85-92 | the queue keeps min(count, numAngles-1) candidates, every candidate is kept or dropped exactly once, and every dropped one is polled before every kept one |
| KNNAimModels.SelectAsWrittenKeepsLowest | src/kc/mega/aim/models/KNNAimModel.java:79-92 | as written, from any three samples with increasing scores and one place, the queue keeps the lowest-scoring one |
| KNNAimModels.SelectKeepsHighest | src/kc/mega/aim/models/KNNAimModel.java:79-92 | corrected: from the same three samples the queue keeps the highest-scoring one |
| KNNAimModels.OnlyExtremeSurvives | src/kc/mega/aim/models/KNNAimModel.java:85-92 | with one place, the survivor is the candidate that is polled after every other one |
| KNNAimModels.Candidates | src/kc/mega/aim/models/KNNAimModel.java:85-88 | one Gumbel-scored candidate for every even index of the sorted edges (a start or an end edge, whichever sorted there), carrying that edge's middle |
| KNNAimModels.SampleAngles | src/kc/mega/aim/models/KNNAimModel.java:74-96 | the best angle always comes first; with no sweep or one angle it is the only one; numAngles < 1 throws; otherwise the middles the queue kept follow |
| KNNAimModels.GetAimGFs | src/kc/mega/aim/models/KNNAimModel.java:74-96 | corrected queue: the best angle comes first, then the middles of the kept candidates, and every dropped candidate scored no higher than every kept one |
| DangerEstimators.NewEstimator | src/kc/mega/move/DangerEstimator.java:390-410 | a new estimator has no hits, weight 0 and unnormalised weight 1, and keeps the rates, multiplier and kind it was given |
| DangerEstimators.InitialEstimators | src/kc/mega/move/DangerEstimator.java:49-75 | the ensemble holds 22 fresh estimators with hit-rate bands inside [0, 1] and positive multipliers; exactly the first 17 are hit models |
| DangerEstimators.AntiRamEntries | src/kc/mega/move/DangerEstimator.java:76-77 | exactly four table entries (Linear, Circular, NanoLinearFixedSpeed, Sedan) are used against a rambot |
| DangerEstimators.UnnormalizedWeight | src/kc/mega/move/DangerEstimator.java:450-452 | the unnormalised weight is positive, and 1 until a second hit has been seen |
| DangerEstimators.SteadyScoreWeight | src/kc/mega/move/DangerEstimator.java:450-452 | a model that placed the same danger x at every scored hit weighs x cubed |
| DangerEstimators.DangerEstimate | src/kc/mega/move/DangerEstimator.java:412-434 | with a positive exp the danger estimate of a hit is at least 1e-4 |
| DangerEstimators.ScoreSumNonNegative | src/kc/mega/move/DangerEstimator.java:427-434 | the scored window contributes a non-negative amount |
| DangerEstimators.ScoreTermNonNegative | src/kc/mega/move/DangerEstimator.java:428-433 | a single bin contributes a non-negative amount |
| DangerEstimators.ScoreTermMonotone | src/kc/mega/move/DangerEstimator.java:428-433 | a bin's contribution grows with its danger |
| DangerEstimators.ScoreSumMonotone | src/kc/mega/move/DangerEstimator.java:427-434 | the window's contribution grows with the dangers bin by bin |
| DangerEstimators.DangerEstimateMonotone | src/kc/mega/move/DangerEstimator.java:412-434 | a model that placed at least as much danger in every bin gets at least as high an estimate |
| DangerEstimators.ScoreHit | src/kc/mega/move/DangerEstimator.java:412-440 | each hit counts once; the first only counts, every later one feeds its estimate to the rolling average, and a one-hit model weighs 1 |
| DangerEstimators.UpdateWeightingStats | src/kc/mega/move/DangerEstimator.java:412-440 | updating on a hit changes only the statistics: the hit count grows by one and, after the first hit, the average takes the estimate |
| DangerEstimators.BetterEstimateMoreWeight | src/kc/mega/move/DangerEstimator.java:412-452 | of two equal estimators, the one that scores the hit higher ends up weighing at least as much |
| DangerEstimators.Unnormalized | src/kc/mega/move/DangerEstimator.java:348-350 | every listed estimator has a positive unnormalised weight |
| DangerEstimators.WeightTotal | src/kc/mega/move/DangerEstimator.java:346-350 | the total over a non-empty list is positive |
| DangerEstimators.SetEstimatorWeights | src/kc/mega/move/DangerEstimator.java:346-354 | only listed estimators change, only in weight, and each gets its share of the total |
| DangerEstimators.WeightsSumToOne | src/kc/mega/move/DangerEstimator.java:346-354 | the new weights of a non-empty list sum to one |
| DangerEstimators.AllIndices | src/kc/mega/move/DangerEstimator.java:324 | the whole table's positions in order |
| DangerEstimators.InBandModelIsActive | src/kc/mega/move/DangerEstimator.java:442-448 | outside anti-ram mode, a model whose band holds the measured hit rate is active |
| DangerEstimators.ActiveFlags | src/kc/mega/move/DangerEstimator.java:442-448 | one flag per estimator, true exactly when it is active |
| DangerEstimators.Kept | src/kc/mega/move/DangerEstimator.java:326-337 | an old entry survives the loop exactly when it is still active or not yet visited |
| DangerEstimators.Newcomers | src/kc/mega/move/DangerEstimator.java:326-331 | the newly active positions already visited, in table order |
| DangerEstimators.KeptNoDup | src/kc/mega/move/DangerEstimator.java:326-337 | the surviving old entries have no duplicates |
| DangerEstimators.KeptStep | src/kc/mega/move/DangerEstimator.java:326-337 | visiting a position that stays active, or was never active, drops nothing |
| DangerEstimators.KeptRemove | src/kc/mega/move/DangerEstimator.java:332-335 | visiting an active position that turned inactive drops exactly it |
| DangerEstimators.ReconcileStep | src/kc/mega/move/DangerEstimator.java:326-337 | one loop iteration keeps the list equal to the kept entries followed by the newcomers |
| DangerEstimators.ReconcileMatches | src/kc/mega/move/DangerEstimator.java:326-337 | the loop from any position yields the kept entries followed by the newcomers, and reports a change exactly when some remaining position changes activity |
| DangerEstimators.DiffersIff | src/kc/mega/move/DangerEstimator.java:325-337 | the change flag means that some position changed activity |
| DangerEstimators.ReconcileActive | src/kc/mega/move/DangerEstimator.java:325-337 | after the loop the list has no duplicates and holds exactly the active positions, and the flag is set exactly when some position changed activity |
| DangerEstimators.SetActiveEstimators | src/kc/mega/move/DangerEstimator.java:323-344 | activity is decided on whole-table weights; the new list holds exactly the active estimators, their weights sum to one, the change flag is exact, and in anti-ram mode only anti-ram models stay active |
| DangerEstimators.KeptIsAllBeforeStart | src/kc/mega/move/DangerEstimator.java:326 | before the loop every old entry is kept |
| DangerEstimators.NoDupAppend | src/kc/mega/move/DangerEstimator.java:328 | appending positions not yet listed keeps the list duplicate-free |
| DangerEstimators.KeptAll | src/kc/mega/move/DangerEstimator.java:332-335 | when every listed entry is active the loop removes nothing |
| DangerEstimators.NoNewcomers | src/kc/mega/move/DangerEstimator.java:327-331 | when every active position is already listed the loop adds nothing |
| DangerEstimators.UnchangedKeepsActive | src/kc/mega/move/DangerEstimator.java:323-344 | when no change is reported, the active list is the one given |
| DangerEstimators.WholeTableWeightsIgnoreOldWeights | src/kc/mega/move/DangerEstimator.java:346-354 | normalising the whole table reads only the statistics, not the old weights |
| DangerEstimators.ReactivationIsStable | src/kc/mega/move/DangerEstimator.java:323-344 | running the activation again with the same strategy and hit rate changes nothing, and an unchanged active list keeps its weights |
| DangerTrackers.NewTracker | src/kc/mega/move/DangerEstimator.java:241-247 | a new tracker has all four caches empty |
| DangerTrackers.Multiplier | src/kc/mega/move/DangerEstimator.java:283-284 | against a rambot the anti-ram multiplier, else the estimator's own, doubled for HOT in anti-HOT mode; a rambot model missing from the anti-ram map throws |
| DangerTrackers.FreshAggregateFails | src/kc/mega/move/DangerEstimator.java:282-294 | the aggregation throws exactly when some active estimator has no multiplier, whichever models it aggregates |
| DangerTrackers.EstimatorDangers | src/kc/mega/move/DangerEstimator.java:297-305 | a cached estimator's array is returned untouched; otherwise the normalised model dangers are computed, cached and returned |
| DangerTrackers.Aggregate | src/kc/mega/move/DangerEstimator.java:279-295 | the cached aggregation only adds to the estimator cache |
| DangerTrackers.AggregateIsFresh | src/kc/mega/move/DangerEstimator.java:279-305 | the cache is transparent: from a coherent cache the aggregation fails exactly when the uncached one does, otherwise returns the same array, keeps the cache coherent, only adds to it, and caches every estimator it read |
| DangerTrackers.FreshAggregateAgree | src/kc/mega/move/DangerEstimator.java:285-291 | the aggregation reads only the ensemble, the strategy, the wave's flags and the dangers of the estimators it includes |
| DangerTrackers.FreshAggregateStep | src/kc/mega/move/DangerEstimator.java:282-293 | one active estimator either makes the aggregation throw, adds its scaled dangers, or is skipped |
| DangerTrackers.Unsmoothed | src/kc/mega/move/DangerEstimator.java:255-256 | the cached unsmoothed dangers only add to the estimator cache |
| DangerTrackers.UnsmoothedIsFresh | src/kc/mega/move/DangerEstimator.java:255-256 | through a coherent cache the unsmoothed dangers equal the uncached ones (hit models alone for a virtual wave, hit models plus flatteners otherwise) and every estimator read is cached |
| DangerTrackers.Smooth | src/kc/mega/move/DangerEstimator.java:258-264 | the smoothing loop computes the sum of one kernel per positive bin |
| DangerTrackers.KernelReachesOwnBin | src/kc/mega/move/DangerEstimator.java:261-262 | a bin's midpoint lies in that bin, so its own kernel reaches it |
| DangerTrackers.SmoothPrefixSupport | src/kc/mega/move/DangerEstimator.java:258-264 | with a positive exponential, partial smoothing is non-negative and keeps every positive bin already spread positive |
| DangerTrackers.SmoothedSupport | src/kc/mega/move/DangerEstimator.java:258-264 | smoothing never produces negative danger and keeps every positive bin positive |
| DangerTrackers.ShadowDiscountBounds | src/kc/mega/move/DangerEstimator.java:270-273 | with shadows in [0, 1] a shadow removes at most 98% of a bin's danger, and an unshadowed bin keeps it all |
| DangerTrackers.GetDangers | src/kc/mega/move/DangerEstimator.java:249-277 | the shadowed cache is returned when present; otherwise the combination is reused or rebuilt and shadowed; from a coherent tracker the result equals the from-scratch dangers and the tracker stays coherent |
| DangerTrackers.OnUpdatedShadow | src/kc/mega/move/DangerEstimator.java:307-309 | only the shadowed array is dropped |
| DangerTrackers.ShadowUpdateKeepsCoherence | src/kc/mega/move/DangerEstimator.java:307-309 | after the wave's shadows change, dropping the shadowed array keeps the tracker coherent |
| DangerTrackers.OnActiveEstimatorsChanged | src/kc/mega/move/DangerEstimator.java:311-313 | only the combined and shadowed arrays are dropped |
| DangerTrackers.OnUpdatedEstimator | src/kc/mega/move/DangerEstimator.java:315-320 | a cached estimator is forgotten along with the combination; an uncached one changes nothing |
| DangerTrackers.EstimatorUpdateKeepsCoherence | src/kc/mega/move/DangerEstimator.java:315-320 | after one estimator is retrained, invalidating it keeps the tracker coherent |
| DangerTrackers.AlreadyHitRange | src/kc/mega/move/DangerEstimator.java:156 | the passed-over range exists exactly once the wave has been visited, and is its hit GF range |
| DangerTrackers.CountedWeight | src/kc/mega/move/DangerEstimator.java:160-165 | a bin counts between nothing and its full overlap with the range, and fully when the passed-over part does not overlap it |
| DangerTrackers.GetBinBounds | src/kc/mega/move/DangerEstimator.java:159 | a range inside [-1, 1) spans existing bins |
| DangerTrackers.RangeDanger | src/kc/mega/move/DangerEstimator.java:158-168 | the danger of a range is never negative |
| DangerTrackers.RangeTermLowered | src/kc/mega/move/DangerEstimator.java:160-166 | one bin's term is non-negative and no larger than without the passed-over part |
| DangerTrackers.AlreadyHitOnlyLowers | src/kc/mega/move/DangerEstimator.java:159-167 | the part of the wave already passed only lowers a range's danger |
| DangerTrackers.ScaledStep | src/kc/mega/move/DangerEstimator.java:166 | one step of a uniform sum distributes the common danger |
| DangerTrackers.UniformRangeSum | src/kc/mega/move/DangerEstimator.java:159-167 | with the same danger in every bin and nothing passed, the range sum is that danger times the range's bin weights |
| DangerTrackers.UniformRangeDanger | src/kc/mega/move/DangerEstimator.java:151-171 | uniform danger x over an unvisited range gives x times the range's width in bins |
| DangerTrackers.GetDanger | src/kc/mega/move/DangerEstimator.java:151-171 | a cached range danger is returned untouched; otherwise the non-negative range danger of the tracker's dangers is computed and cached, equal to the from-scratch value when the tracker is coherent |
| DangerEstimation.Initial | src/kc/mega/move/DangerEstimator.java:42-78 | the estimator starts with the 22-model table, nothing active and no trackers |
| DangerEstimation.TurnTracker | src/kc/mega/move/DangerEstimator.java:87-94 | a surviving tracker keeps its per-bin arrays well sized through the turn |
| DangerEstimation.OnTurn | src/kc/mega/move/DangerEstimator.java:80-100 | only trackers of surfable waves survive; each forgets its range dangers; those whose wave gained shadows drop the shadowed array; the movement waves come back with their record of updated shadows emptied and their waves unchanged; a changed active set drops every combination; the table and active list are what setActiveEstimators gives |
| DangerEstimation.SecondTurnKeepsShadowed | src/kc/mega/move/DangerEstimator.java:89-95 | because the record of updated shadows is emptied, a second turn with no shadow change in between and an unchanged active set keeps every surviving tracker's shadowed array |
| DangerEstimation.OnTurnKeepsCoherence | src/kc/mega/move/DangerEstimator.java:80-100 | a tracker that agreed with its wave still agrees after the turn under the new weights, list and shadows, when the active set changed or the weights did not move |
| DangerEstimation.TrackerOf | src/kc/mega/move/DangerEstimator.java:131-138 | the wave's existing tracker, else a new empty one |
| DangerEstimation.NewTrackerCoherent | src/kc/mega/move/DangerEstimator.java:241-247 | a newly created tracker agrees with its wave |
| DangerEstimation.Store | src/kc/mega/move/DangerEstimator.java:135 | only the wave's tracker is replaced or added |
| DangerEstimation.GetDangers | src/kc/mega/move/DangerEstimator.java:140-142 | the wave's tracker is kept (created if need be) and no other changes; from a coherent tracker the answer is the from-scratch dangers |
| DangerEstimation.GetDanger | src/kc/mega/move/DangerEstimator.java:151-171 | a memoised range danger is returned as is; otherwise the non-negative range danger is computed and memoised, equal to the from-scratch value from a coherent tracker; no other tracker changes |
| DangerEstimation.GetDangerTwice | src/kc/mega/move/DangerEstimator.java:151-171 | a second getDanger for the same Range object returns the first answer |
| DangerEstimation.ScoredOnHit | src/kc/mega/move/DangerEstimator.java:414 | exactly the estimators that have seen a hit before score this one |
| DangerEstimation.ScoreAll | src/kc/mega/move/DangerEstimator.java:108-110 | every estimator counts the hit; those with earlier hits feed the danger they had placed at it to their average |
| DangerEstimation.ScoringCache | src/kc/mega/move/DangerEstimator.java:416 | after scoring, the hit wave's cache holds every scored estimator's array |
| DangerEstimation.InvalidateHitModels | src/kc/mega/move/DangerEstimator.java:111-119 | a tracker forgets the retrained hit models' arrays, and drops its combination exactly when it held one of them |
| DangerEstimation.OtherTrackerAfterBullet | src/kc/mega/move/DangerEstimator.java:114-118 | another wave's tracker stays well sized through the bullet |
| DangerEstimation.HitTrackerAfterBullet | src/kc/mega/move/DangerEstimator.java:297-305 | the hit wave's tracker gains exactly the scored estimators' normalised arrays and nothing else changes |
| DangerEstimation.TrackersAfterBullet | src/kc/mega/move/DangerEstimator.java:108-119 | the hit wave keeps or gains its tracker; every other tracker is invalidated as the retraining requires |
| DangerEstimation.OnSeeBullet | src/kc/mega/move/DangerEstimator.java:102-121 | (without the logging step of lines 103-107, which OnSeeBulletLogged adds) every estimator's hit count grows by one; those with earlier hits average the danger they had placed; the active list is kept; the hit wave's tracker only gains scored arrays; other trackers are invalidated |
| DangerEstimation.OnSeeBulletLogged | src/kc/mega/move/DangerEstimator.java:102-121 | with the getDangersWithoutShadows step for a bullet that did not collide: a collided bullet is exactly OnSeeBullet; otherwise it fails exactly when the aggregation throws, every hit count grows by one, and with a tracker that agrees with the wave the estimators learn exactly what they learn without the step and the tracker still agrees |
| DangerEstimation.SameScoresWhenCoherent | src/kc/mega/move/DangerEstimator.java:108-110 | two states with the same estimators whose hit-wave caches agree with the models score a hit identically |
| DangerEstimation.ScoreAllSameWhenCoherent | src/kc/mega/move/DangerEstimator.java:108-110 | scoring through any two caches that agree with the models gives the same estimators |
| DangerEstimation.MixRetrained | src/kc/mega/move/DangerEstimator.java:111-113 | the raw dangers after retraining the hit models among the first n estimators |
| DangerEstimation.InvalidateKeepsCoherence | src/kc/mega/move/DangerEstimator.java:111-119 | invalidating the retrained hit models keeps a tracker coherent with the retrained dangers |
| DangerEstimation.BulletKeepsOtherTrackersCoherent | src/kc/mega/move/DangerEstimator.java:111-119 | after a bullet, every other real wave's tracker agrees with its wave under the retrained models |
| DangerEstimation.BulletKeepsHitTrackerCoherent | src/kc/mega/move/DangerEstimator.java:108-110 | scoring through the hit wave's tracker keeps it coherent |
| DangerEstimation.TurnedStateNeverThrows | src/kc/mega/move/DangerEstimator.java:283-287 | after a turn, the aggregation under the same strategy never meets a missing anti-ram multiplier |
| ShadowScorers.BinsDangerDropFirst | src/kc/mega/move/ShadowScorer.java:115-117 | a span's danger is its first bin's plus the rest's |
| ShadowScorers.VisitStep | src/kc/mega/move/ShadowScorer.java:118-120 | the planned-visit sum gains a bin exactly when the bin lies in the visit |
| ShadowScorers.LeastWindow | src/kc/mega/move/ShadowScorer.java:121-126 | the first window of least danger among those that fit |
| ShadowScorers.MinStep | src/kc/mega/move/ShadowScorer.java:121-124 | offering the next window to the running minimum keeps it the least window so far |
| ShadowScorers.MinReachableDanger | src/kc/mega/move/ShadowScorer.java:113-126 | 0 when no window of widthBins+1 bins fits in the reachable span, otherwise the danger of a fitting window that no other fitting window undercuts |
| ShadowScorers.VisitWeight | src/kc/mega/move/ShadowScorer.java:129 | Java's integer 1/depth gives weight 1 on the first wave and 0 on every deeper one |
| ShadowScorers.MinDangerPicksOne | src/kc/mega/move/ShadowScorer.java:129-130 | the score is the wave's power times the plan's own visit danger on the first wave, and times the least reachable window on every deeper one |
| ShadowScorers.GetMinDanger | src/kc/mega/move/ShadowScorer.java:111-131 | the single running-sum sweep computes the power-weighted blend of the visit danger and the least reachable window |
| ShadowScorers.Ceil | src/kc/mega/move/ShadowScorer.java:82 | (int)Math.ceil of a non-negative value is the least integer at or above it |
| ShadowScorers.VisitBins | src/kc/mega/move/ShadowScorer.java:87-99 | an unrecorded visit covers no bin (-1, -1); a planned visit covers the bins of its GF range; an approximate one the bins from its start to its end GF |
| ShadowScorers.ApproximateVisitIsOneBinAsWritten | src/kc/mega/move/ShadowScorer.java:97-98 | as written, an approximate visit always covers a single bin; a location two bins wide covers several once its end is read from endGF |
| ShadowScorers.MakeWaveDangers | src/kc/mega/move/ShadowScorer.java:76-101 | the reachable span runs from the bin of its start to the bin of its end, the window is ceil(width/binWidth) bins, the visit bins are as above, and the base danger is the score of the wave's own shadows |
| ShadowScorers.MakeWaveDangersAsWritten | src/kc/mega/move/ShadowScorer.java:97-98 | as written, the constructor differs from the corrected one only in the approximate visit's end bin |
| ShadowScorers.AsWrittenScoresAlikeBelowFirstWave | src/kc/mega/move/ShadowScorer.java:97-129 | below the first wave the misread end bin carries no weight: both constructors score every set of shadows alike |
| ShadowScorers.ScaleMonotone | src/kc/mega/move/ShadowScorer.java:130 | scaling by a non-negative power keeps order |
| ShadowScorers.BinsDangerAntitone | src/kc/mega/move/ShadowScorer.java:116 | more shadow never makes a span of bins more dangerous |
| ShadowScorers.BinsDangerNonNegative | src/kc/mega/move/ShadowScorer.java:116 | with shadows in [0, 1] no span has negative danger |
| ShadowScorers.MinDangerNonNegative | src/kc/mega/move/ShadowScorer.java:111-131 | with shadows in [0, 1] a plan node's score is not negative |
| ShadowScorers.MinReachableAntitone | src/kc/mega/move/ShadowScorer.java:113-126 | more shadow never makes the least reachable window more dangerous |
| ShadowScorers.BlendMonotone | src/kc/mega/move/ShadowScorer.java:130 | for a visit weight of 0 or 1 the blend grows with both dangers |
| ShadowScorers.ShadowsNeverRaiseDanger | src/kc/mega/move/ShadowScorer.java:111-131 | more shadow never raises a plan node's score |
| ShadowScorers.MinDangerWithBullet | src/kc/mega/move/ShadowScorer.java:103-109 | the shortcut of returning the base danger when the bullet casts no shadow always equals scoring the bullet's shadows, and the result lies between 0 and the base danger |
| ShadowScorers.TotalMinDanger | src/kc/mega/move/ShadowScorer.java:59-60 | with a bullet in the air the plan's summed score lies between 0 and the summed base danger |
| ShadowScorers.ShotScore | src/kc/mega/move/ShadowScorer.java:58-60 | the plan's score with a bullet in the air: with a pow that does not decrease in its base and sensible wave dangers, never above the score of holding fire |
| ShadowScorers.DangersAfterNewShadows | src/kc/mega/move/ShadowScorer.java:51-63 | one score per candidate GF, the plan's score with a probe bullet fired at that GF; with a monotone pow and sensible wave dangers, no candidate scores above holding fire |
| Paths.ChangesAppend | src/kc/mega/move/Paths.java:47-50 | appending a tick adds one change of direction exactly when it turns |
| Paths.StoredStep | src/kc/mega/move/Paths.java:53 | the stored step halts exactly when the plan halts or reverses above speed 1.99, and otherwise is the intended direction |
| Paths.OthersDiffer | src/kc/mega/move/Paths.java:47-50 | the two branch directions are the two directions other than the current one |
| Paths.FiledFromShorter | src/kc/mega/move/Paths.java:58 | a plan filed from an extension of a partial plan is filed from the partial plan too |
| Paths.ExtendPartial | src/kc/mega/move/Paths.java:53-58 | extending a partial plan by one tick in its direction keeps it partial and gives a well-filed plan |
| Paths.AddPaths | src/kc/mega/move/Paths.java:40-59 | the enumeration from a partial plan: nothing at 50 ticks; otherwise, before any change of direction, the two branches to the other directions, then the plan extended by one tick and everything from it (Paths.AddPathsUnfold); every plan it files is well filed (Paths.AddPathsWellFiled) |
| Paths.AddPathsWellFiled | src/kc/mega/move/Paths.java:40-59 | every plan the enumeration files extends the plan it started from, has 1 to 50 ticks, steps that are the intended direction or a halt, and at most one change of direction |
| Paths.VelocityPaths | src/kc/mega/move/Paths.java:33-35 | the plans filed for one starting speed: the forward, halting and backward enumerations from an empty plan, in that order |
| Paths.VelocityPathsWellFiled | src/kc/mega/move/Paths.java:26-38 | every plan the constructor files for a starting speed is well filed |
| Paths.StartingVelocities | src/kc/mega/move/Paths.java:28 | the constructor's speed loop visits the 17 speeds 0, 0.5, .., 8 |
| Paths.Bucket | src/kc/mega/move/Paths.java:63-65 | the bucket of a speed is (int)(abs(v)/0.5), an existing bucket whose speed step holds abs(v) |
| Paths.GetMatchingPath | src/kc/mega/move/Paths.java:61-74 | the lookup in the bucket of the speed and the tree of min(ticks, 50)-tick plans, keyed by 3 times the end velocity and the distance, both mirrored and the plan negated when moving backwards; Paths.MatchingPathMirrors and Paths.MatchingPathShape state its properties |
| Paths.Negate | src/kc/mega/move/Paths.java:72 | a backward plan is the forward plan with every step negated |
| Paths.MatchingPathMirrors | src/kc/mega/move/Paths.java:61-74 | the plan for a negative velocity is the negated plan for the mirrored velocity, distance and end velocity |
| Paths.FiledShape | src/kc/mega/move/Paths.java:56-57 | a filed plan has the length of the tree it is filed in and only direction steps |
| Paths.FiledAnswersAreShaped | src/kc/mega/move/Paths.java:64-68 | a lookup that answers with filed plans answers with plans of the searched tree's length |
| Paths.MatchingPathShape | src/kc/mega/move/Paths.java:61-74 | given a lookup answering from the tree it searched, the matching plan has min(ticks, 50) ticks of directions |
| Paths.ShapedMatchingPath | src/kc/mega/move/Paths.java:61-74 | a lookup answering with well-shaped plans gives a matching plan of min(ticks, 50) ticks, negated or not |
| PathSurfers.WaveWeight | src/kc/mega/move/PathSurfer.java:140-142 | a wave's weight is positive exactly when its power exceeds -0.2 |
| PathSurfers.NearerWavesWeighMore | src/kc/mega/move/PathSurfer.java:140-142 | of two waves of the same power, the one breaking sooner weighs at least as much |
| PathSurfers.QuotientAntitone | src/kc/mega/move/PathSurfer.java:141 | dividing by a larger positive root gives a smaller weight |
| PathSurfers.Add | src/kc/mega/move/PathSurfer.java:156-162 | adding a range to a wave merges it into the wave's range or stores it, grows that range to cover it, and leaves other waves alone |
| PathSurfers.MergeAll | src/kc/mega/move/PathSurfer.java:164-166 | the order-free reference: every wave of either map, with its ranges merged |
| PathSurfers.MergeOnStep | src/kc/mega/move/PathSurfer.java:165 | adding one wave not yet merged moves it into the merged set |
| PathSurfers.KeySet | src/kc/mega/move/PathSurfer.java:165 | the waves a listing of entries names |
| PathSurfers.AddEntriesMergesOn | src/kc/mega/move/PathSurfer.java:164-166 | adding the entries one by one merges exactly the listed waves |
| PathSurfers.AddAllIsOrderFree | src/kc/mega/move/PathSurfer.java:164-166 | whatever order the hash map lists its entries in, addAll gives the order-free merge |
| PathSurfers.MinDanger | src/kc/mega/move/PathSurfer.java:168-179 | no danger past the last wave or for a wave never reached; with a non-negative approximate danger and power the estimate is not negative |
| PathSurfers.MinFutureDanger | src/kc/mega/move/PathSurfer.java:69-77 | the heuristic has three levels, the last 0; with overlapping waves (three ticks or less apart) all are 0; otherwise it never grows with depth |
| PathSurfers.ExtensionMatch | src/kc/mega/move/PathSurfer.java:364-382 | the loop decides that the two extensions plan the same move on every tick once each repeats its last direction, on the same evade side |
| PathSurfers.SameSymmetric | src/kc/mega/move/PathSurfer.java:364-382 | being a duplicate is symmetric |
| PathSurfers.CompareTo | src/kc/mega/move/PathSurfer.java:443-447 | the comparator's sign is the order of the danger keys, with a 100 bonus for the current plan |
| PathSurfers.CompareToAntisymmetric | src/kc/mega/move/PathSurfer.java:443-447 | swapping the nodes negates the comparison |
| PathSurfers.Insert | src/kc/mega/move/PathSurfer.java:352 | the children set only ever gains the inserted node |
| PathSurfers.HasKeyTail | src/kc/mega/move/PathSurfer.java:352 | a key not at the head is present exactly when it is in the tail |
| PathSurfers.SortedTail | src/kc/mega/move/PathSurfer.java:352 | in a key-ordered set the head's key is below every later key |
| PathSurfers.InsertSorted | src/kc/mega/move/PathSurfer.java:352 | inserting into the key-ordered children keeps them ordered |
| PathSurfers.InsertDropsTakenKey | src/kc/mega/move/PathSurfer.java:352 | a node whose key equals a present child's is dropped, as TreeSet.add does |
| PathSurfers.InsertAddsFreshKey | src/kc/mega/move/PathSurfer.java:352 | a node with a fresh key is added and nothing else changes |
| PathSurfers.SortedCons | src/kc/mega/move/PathSurfer.java:352 | a head below every key keeps the set ordered |
| PathSurfers.InsertDistinct | src/kc/mega/move/PathSurfer.java:349-352 | inserting a node that duplicates no child keeps the children free of duplicates |
| PathSurfers.AddChild | src/kc/mega/move/PathSurfer.java:343-362 | a child is added only for a requested extension not already among the children, as the simulation of it; otherwise nothing changes; the set stays ordered and duplicate-free |
| PathSurfers.AddRequests | src/kc/mega/move/PathSurfer.java:317-324 | each request adds at most one precise child, not from the current plan, and the set stays ordered and duplicate-free |
| PathSurfers.SurfChildren | src/kc/mega/move/PathSurfer.java:326-338 | the usual children are at most six precise children of the node, ordered and duplicate-free |
| PathSurfers.AddChildren | src/kc/mega/move/PathSurfer.java:304-341 | none at the maximum depth or with no wave left; on the third wave one approximate child exactly when the wave is real; otherwise at most six ordered, duplicate-free precise children |
| PathSurfers.ForwardBackwardDiffer | src/kc/mega/move/PathSurfer.java:329-332 | simulated forward and backward extensions never start with the same direction |
| PathSurfers.SurfChildrenNeverNull | src/kc/mega/move/PathSurfer.java:326-338 | when the simulation keeps the requested first step, getCandidateExtension is never called on a null child |
| PathSurfers.CurrentPlanReconsidered | src/kc/mega/move/PathSurfer.java:326-327 | on the current plan its continuation is always a child, and the only one marked as from the plan |
| PathSurfers.Search | src/kc/mega/move/PathSurfer.java:284-302 | a childless node is its own answer; otherwise any answer is a leaf below the bound; with no bound there is always an answer |
| PathSurfers.SearchFrom | src/kc/mega/move/PathSurfer.java:290-301 | the loop keeps the best leaf so far, answers whenever it had one or started unbounded, and stops at the first child the heuristic prunes |
| PathSurfers.Consume | src/kc/mega/move/PathSurfer.java:61-67 | last turn's plan loses exactly its first tick, dropping the first node once it is used up |
| PathSurfers.UpdateVisitRange | src/kc/mega/move/PathSurfer.java:412-419 | folding the children's visit ranges only widens the ranges and covers every child's ranges |
| PathSurfers.WidensTransitive | src/kc/mega/move/PathSurfer.java:412-419 | widening twice is widening |
| Shielding.HeadOnBearing | src/kc/mega/shield/Shielder.java:227-265 | each predictor's head-on bearing: the previous absolute bearing (plain and directional), that bearing corrected by our heading change since the shot, the precise bearing from our next location, or the current absolute bearing |
| Shielding.AdjustOffset | src/kc/mega/shield/Shielder.java:263-299 | only the directional predictor mirrors an offset by the orbit direction; Shielding.AdjustOffsetInvolution states that adjusting twice is the identity |
| Shielding.PredictBulletHeading | src/kc/mega/shield/Shielder.java:284-286 | the head-on bearing plus the adjusted most likely offset; Shielding.FreshPredictsHeadOn states the case with no bullets seen |
| Shielding.BaseScore | src/kc/mega/shield/Shielder.java:227-268 | every predictor has a positive prior score |
| Shielding.AdjustOffsetInvolution | src/kc/mega/shield/Shielder.java:297-299 | for an orbit direction of plus or minus one, adjusting an offset twice gives it back |
| Shielding.FreshPredictsHeadOn | src/kc/mega/shield/Shielder.java:275-286 | a predictor that has seen no bullet fires head-on |
| Shielding.CountNear | src/kc/mega/shield/Shielder.java:305-309 | at most the scanned offsets count as near |
| Shielding.SetOffsetAndScore | src/kc/mega/shield/Shielder.java:313-325 | with no offsets the predictor is fresh; otherwise the most likely offset is the first offset of highest positive choice score (index 0 when none is positive), and the predictor's score is its base plus that offset's score over the long history |
| Shielding.Logged | src/kc/mega/shield/Shielder.java:289-293 | logging appends the offset and keeps the last 500 |
| Shielding.LogBullet | src/kc/mega/shield/Shielder.java:288-295 | the adjusted, normalised offset of the seen bullet from the head-on bearing is logged; after the first bullet the predictor aims in the bullet's direction |
| Shielding.MaxBy | src/kc/mega/shield/Shielder.java:223 | Stream.max with a signum comparator returns the first of the highest scores |
| Shielding.Scores | src/kc/mega/shield/Shielder.java:223 | one score per predictor |
| Shielding.BestPredictor | src/kc/mega/shield/Shielder.java:222-224 | the best predictor is present and scores at least as high as every other |
| Shielding.InitiallyPrevAbsBearing | src/kc/mega/shield/Shielder.java:222-232 | before any bullet is seen the Shielder trusts the standard head-on predictor |
| Shielding.GeometricPowers | src/kc/mega/shield/Shielder.java:127-129 | there are exactly ten geometric powers; Shielding.GeometricPowersClimb states their values |
| Shielding.GeometricPowersClimb | src/kc/mega/shield/Shielder.java:127-129 | the ten geometric powers start at 0.1, each is the ratio times the previous, and one more step reaches the wave's power (at least 0.2) |
| Shielding.GetPowers | src/kc/mega/shield/Shielder.java:120-155 | before the enemy has moved only 0.1; otherwise the ten geometric powers followed by intersecting powers that lie in (0.1, 3) and are below the wave's power |
| Shielding.PlanScore | src/kc/mega/shield/Shielder.java:193-201 | the Plan score: 1 for a shadow, bonuses for shadows wider than 1e-6, 1e-5 and (without a wiggle) 1e-4, 0.01 for each power below a target, plus the width, minus 1e-10 per unit of power; Shielding.ShadowBeatsNoShadow states what the weights achieve |
| Shielding.ShadowBeatsNoShadow | src/kc/mega/shield/Shielder.java:197-204 | any plan whose bullet casts a shadow outscores every plan whose bullet casts none |
| Shielding.Execute | src/kc/mega/shield/Shielder.java:207-219 | a plan is done from its fire time on; it fires its power exactly at the fire time; it moves only when wiggling, in the tick before and the tick of firing |
| Shielding.WiggleReturns | src/kc/mega/shield/Shielder.java:210-216 | a wiggle returns exactly to where it started |
| Shielding.ExecuteFirst | src/kc/mega/shield/Shielder.java:105-112 | with plans, the first is executed and dropped exactly once it is done; with none nothing is commanded |
| Shielding.BestPlan | src/kc/mega/shield/Shielder.java:97-99 | the adopted plan is one of the options and scores at least as high as every other, and exists exactly when there is an option |
| FastTrig.NormalRelativeAngle | src/jk/math/FastTrig.java:187-192 | the result lies in [-PI, PI) and differs from the input by whole turns |
| FastTrig.NormalRelativeAngleIdentity | src/jk/math/FastTrig.java:187-192 | an angle already in [-PI, PI) is returned unchanged |
| FastTrig.NormalRelativeAngleIdempotent | src/jk/math/FastTrig.java:187-192 | normalising twice is normalising once |

## Left out

- Robocode commands and events (`setAhead`, `setTurn…`, `setFire`, painting, printing, `DatasetWriter`) are outside the model. Each operation's effect is modelled as a returned value or a returned command.
- `GameState.update` and `updateWithoutScan` (`src/kc/mega/game/GameState.java:69-135`) are left out: the scan geometry and the enemy-fire detection from energy drops depend on robocode event data. Only the history and future lists, the state lookups and the hit bookkeeping are modelled. The same goes for `onRoundStart` and the trivial `onFire`/`onBulletHit`/`onHitByBullet` wrappers, which only forward to the modelled `updateFromFire` and `updateFromBulletHit`.
- `GameState.updateMyStates` and `setFutureStates` (`src/kc/mega/game/GameState.java:199-231`) read the robot's live state. The future-state prediction they call is modelled (`GameStates.AddPredictedFutureStates`).
- `BotState`'s constructors and `getNextState`/`predictNextState` (`src/kc/mega/game/BotState.java:22-40`) are left out. They build states from `PredictState`'s movement physics, which is a trigonometric oracle here. `BotStates.NextState` takes the predicted motion as input.
- `BattleField.walkingStickSmooth`/`fancyStickSmooth`/`smoothAngle` (`src/kc/mega/game/BattleField.java:91-215`) are left out: wall smoothing is trigonometry on projected points. Neither is `onBattleStart` (it reads robocode's battlefield size and builds a rectangle).
- `WaveKNN.getNormalizedFeatures` and the neural-network embedding are left out: they are feature scaling by trigonometric and robocode-derived inputs. Only the linear embedding and the neighbour weighting are modelled. The kd-tree's nearest-neighbour search is an oracle, and so is the random coordinate `Paths` adds to its tree points.
- `Wave.getGF(Point2D)` and `getTicksUntilPasses` (`src/kc/mega/wave/Wave.java:101-103`, `241-250`) are left out: they are absolute-bearing and distance geometry. Bearings and pass times are inputs.
- `Waves.closestWave` and `getCurrentGF` (`src/kc/mega/wave/Waves.java:57-69`) are left out: they are distance geometry over the same oracles.
- `HitRateTracker`'s getters and `getHitRateStr`/`getApproximateScore` are plain field reads or printing.
- The aim angles of the linear, circular and nano targeting models (`src/kc/mega/move/models/SimpleDangerModels.java:77-145`) come from a trigonometric iteration. `SimpleDangerModels.SingleAngleDangers` takes the resulting aim offset as an input.
- `DangerEstimator.onVisit` only forwards a wave to the flattener models' `train`, and `APMFlatteners.OnTurn`/`KNNDangerModels.Train` model what those do. The `onTurn` of the other danger models is the same kind of forwarding.
- `DangerEstimator.getDangersWithoutShadows` (`src/kc/mega/move/DangerEstimator.java:144-149`) is getDangers followed by a normalised copy of the tracker's combined dangers. Its tracker side effect is modelled in `DangerEstimation.OnSeeBulletLogged`. The copy is only written to the dataset log and is left out.
- `DangerEstimator.getApproximateDanger` and `getBestApproximateDanger` (`src/kc/mega/move/DangerEstimator.java:172-222`) are left out: their window width comes from `Geom.maxHalfBotAngle`/`Geom.maxBotAngle` and `Math.ceil`. They are read as oracles where the surfer uses them (`PathSurfers.MinDanger`, `ShadowScorers.MakeWaveDangers`' `unshadowed` input).
- KNNAimModels.SampleAngles: lists the kept middles in the model's queue order, which is insertion order with the polled entries removed. Java streams the `PriorityQueue`'s heap array (`src/kc/mega/aim/models/KNNAimModel.java:93`), whose order is unspecified; only the multiset of the angles after the first one matches the source.
- KNNAimModels.GetAimGFs: the same ordering caveat as `KNNAimModels.SampleAngles`. Only which middles are returned, and that the best angle is first, match the source.
- KNNAimModels.Candidates: `log` is an arbitrary real-valued oracle. The even indices of the sorted edges include end edges whenever the ranges overlap, and an end edge's weight is negative. Java's `Math.log` then yields NaN, and `Math.signum` of a NaN difference makes the comparator call such an entry equal to every other. NaN scores and that comparator behaviour are not modelled.
- DangerTrackers.GetDanger: requires the GF range to lie in [-1, 1), where every bin index is in range. Java never checks this and relies on its callers, which pass ranges clipped to ±0.99999.
- ShadowScorers.MakeWaveDangers: requires the reachable range to lie in [-1, 1) and the node to be below the root, for the same reason. `ShadowScorer` filters out nodes without a reachable range before it calls the constructor.
- DangerEstimation.OnSeeBullet: as in the Java, the trackers of virtual waves are not invalidated when a hit model is retrained. Coherence is therefore stated only for real waves (`DangerEstimation.BulletKeepsOtherTrackersCoherent`).
- The `shadows == null` branch of `DangerTracker.getDangers` is left out: a movement wave always has a shadow array.
- `ShadowScorer.getHelpfulShadowGFs` (`src/kc/mega/move/ShadowScorer.java:22-49`) is left out: it projects bullets through absolute bearings, which are trigonometric oracles here.
- `PathSurfer`'s constructor, `clearState`, `printTree` and `paintVisitOffsets` only allocate, paint or print.
- The end of `PathSurfer.surf` (`src/kc/mega/move/PathSurfer.java:82-137`) is left out: it rebuilds the plan from the best leaf's ancestors and turns it into robocode commands. Only the start of `surf` is modelled: consuming last turn's plan, the A* heuristic, and the search.
- `PathSurfer.Node`'s constructors and `getDangerMultiplier` (`src/kc/mega/move/PathSurfer.java:196-282`) are left out: they run the movement `Simulation` and distance geometry. What a child learns from them is the oracle `PathSurfers.Sim`, and the approximate child's danger is an input.
- `PathSurfer.Node.getCandidateExtension` (`src/kc/mega/move/PathSurfer.java:384-410`) picks a random target velocity and a danger-minimising point. It is the oracle `candidate`.
- PathSurfers.SurfChildren: the proof that a null child is never dereferenced assumes the simulation keeps the requested first step (`KeepsLead`), as `Simulation.simulate` does. The simulation itself is not part of this model.
- `Shielder.shield` (`src/kc/mega/shield/Shielder.java:60-96`) is left out: building the enemy wave, tracking the orbit direction, and the plan-generation loop over wiggle and powers. The fire time comes from robocode's gun heat. The plan's shadow comes from `Wave.addBulletShadows` on a wave built from live geometry.
- From `Shielder`, the model keeps the pieces the loop composes: `Shielding.GetPowers`, `Shielding.PlanScore`, `Shielding.BestPlan` and `Shielding.ExecuteFirst`. The `gameTime != 20` warm-up condition, `parallelHeading` and the turn/gun commands are left out.
- `Shielding.LogBullet` normalises with `FastTrig.NormalRelativeAngle`, where `Shielder.java:290` calls robocode's `Utils.normalRelativeAngle`. Over the reals both return the representative in [-PI, PI) that differs by whole turns, so the two coincide; only their floating-point rounding could differ.
- `Shielder.onHitByBullet`/`onBulletHitBullet`/`logBullet` (`src/kc/mega/shield/Shielder.java:328-349`) only look a wave up (`Waves.GetHitWave`, `Waves.GetBulletHitBulletWave`) and forward it to each predictor's `Shielding.LogBullet`.
- Shielding.GetPowers: the enemy bullet's distance per tick is an oracle `dist`, required to stop decreasing within a horizon. The Java loop's termination relies on the same fact, because a straight-line bullet passes a point.
- Floating point: doubles are modelled as exact reals. Rounding and `NaN`/infinity (other than the explicit +infinity sentinels, which are `None`) are not modelled.
- `Math.PI` is the decimal constant `FastTrig.PI`. The other constants (bin counts, rolling factors, thresholds) are copied exactly.

## Findings

| source | as written | input that shows it | evidently intended | confidence | as-written member | corrected member |
|---|---|---|---|---|---|---|
| src/kc/mega/wave/Wave.java:221-230 | `shadowsChanged \|= result[1]` ORs in "no shadow was added" from every tick, and the final tick never adds one; so `onFire` marks every enemy bullet wave and `onEnemyFire` marks the new wave whenever a bullet of ours is in flight (WaveManagers.OnFireAsWritten, WaveManagers.OnEnemyFireAsWritten) | any bullet, e.g. one that never crosses the wave: the result is still true | report true exactly when some tick added a shadow | high (not executed) | WaveModel.AddBulletShadowsAsWrittenAlwaysTrue | WaveModel.AddBulletShadows |
| src/kc/mega/aim/models/KNNAimModel.java:102-110 | `if (i > 0)` after `binarySearch`: an exact hit at index 0 takes the miss branch and reads `edges[-2]` | a GF equal to the first edge's GF | treat every `i >= 0` as a hit | high (not executed) | KNNAimModels.ScoreAsWrittenThrowsOnFirstEdge | KNNAimModels.ScoreAimGF |
| src/kc/mega/aim/models/KNNAimModel.java:79-92 | the `PriorityQueue` comparator puts the highest sampled score first, so `poll()` discards the best and the queue keeps the lowest | sample scores 1, 2, 3 with one place: 1 is kept | keep the highest-scoring samples (Gumbel top-k) | medium (not executed) | KNNAimModels.SelectAsWrittenKeepsLowest | KNNAimModels.SelectKeepsHighest |
| src/kc/mega/game/GameState.java:246-252 | `bulletDamage(power, hitBot.energy)` is logged after `hitBot` has already lost the damage, so the cap uses the reduced energy | power 1 on a bot with energy 5: it loses 4 but 1 is logged | log the damage dealt, capped by the energy before the hit | high (not executed) | GameStates.AsWrittenUnderLogsDamage | GameStates.UpdateFromBulletHit |
| src/kc/mega/game/BattleField.java:72-89 | the bisection starts with `lo` at the top and `hi` at 0, and moves the upper end `lo` down when the probe is inside the field and the lower end `hi` up when it is outside | any field where probes up to distance t are inside: the search runs to an end of the interval | raise the lower end `hi` while inside, lower the upper end `lo` while outside | high (not executed) | BattleFields.OrbitalWallDistanceAsWritten | BattleFields.OrbitalWallDistance |
| src/kc/mega/wave/Wave.java:95-97 | `hitOffset = visitOffsetRange.middle()` also runs when the visit range is still empty, storing 0 | a wave that passes before the enemy was seen inside it: hitOffset becomes 0, not the 'unset' value, so `Waves.update`'s no-data branch is dead and the wave is returned for learning (Waves.UnseenPassedWaveReturnedOnlyAsWritten) | set hitOffset only when the wave was seen passing the bot | medium (not executed) | WaveModel.PassedWaveAlwaysHasOffsetAsWritten | WaveModel.UpdateRecordsOnlyObservedOffsets |
| src/kc/mega/move/ShadowScorer.java:97-98 | `visitEnd = bins.getBin(n.approximateWaveLoc.startGF)` reads startGF twice | an approximate location two or more bins wide covers one bin | `visitEnd` from `endGF` | medium, harmless on the third wave where the visit weight is 0 (not executed) | ShadowScorers.ApproximateVisitIsOneBinAsWritten | ShadowScorers.MakeWaveDangers |
