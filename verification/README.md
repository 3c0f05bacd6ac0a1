# wc3ts-missiles: missile recycler and orientation table

A Dafny model of the two pieces of `missile.ts` that carry logic of their own:

- `MissileStack`, the recycler for missile instances. Every instance works on
  one static array. `push` appends to it and `pop` removes its last element.
  The `MissileStack.stack.reverse;` statements on either side of the pop only
  read the `reverse` property and never call it. The recycler is therefore a
  plain last-in-first-out stack.
- `EulerAngles`, the orientation lookup table:
  - `from(xyAngle, zAngle)` buckets two angles into an integer key, then reads
    yaw, pitch and roll from three tables at that key;
  - `initAngles(key, dx, dy, dz)` stores the angles of a direction vector. In
    the code it only handles the zero vector, which writes nothing, and the
    vertical vector, which writes yaw 0, roll 0 and a pitch of -pi/2 for up or
    pi/2 for down.

Files:

- `wrappers.dfy`: `Option`, with `None` standing for JavaScript's `undefined`.
- `recycler.dfy` (module `Recycler`):
  - the stack specification functions `Pushed`, `Popped`, `PushedAll` and
    `PoppedMany`;
  - the last-in-first-out lemmas;
  - the classes `StackStorage`, which is the static array, and `MissileStack`.
    A `MissileStack` works on the `StackStorage` object it is given; the
    array is shared when every instance is given the same one.
- `orientation.dfy` (module `Orientation`):
  - the key arithmetic of `from`, written as the code has it;
  - the two defects in that arithmetic, and the key the code evidently
    intends;
  - the class `EulerAngles`, holding the three tables, with `From` and
    `InitAngles`.

Numbers are exact reals. The host's `R2I` truncates toward zero. JavaScript's
`%` is the remainder of a division truncated toward zero. The two values of pi
stay separate:

- `Math.PI` (`MATH_PI = 3.141592653589793`) scales the angles;
- the host constant `bj_PI` (`BJ_PI = 3.14159`) sizes the buckets, through
  `xyDelta` and `zDelta`.

## Model

| member | source | states |
|---|---|---|
| Recycler.Pushed | missile.ts:141-143 | the stack after `push(x)` is one longer, holds `x` at the end and every earlier element in place |
| Recycler.Popped | missile.ts:145-150 | `pop` returns `undefined` exactly when the stack is empty, and then leaves it empty; otherwise it removes one element, and pushing the returned element back gives the original stack |
| Recycler.PopUndoesPush | missile.ts:141-150 | `push(x)` then `pop()` returns `x` and restores the stack exactly |
| Recycler.PushedAllAppends | missile.ts:141-143 | pushing a sequence of elements one by one appends them in order |
| Recycler.NewestFirst | missile.ts:145-150 | the order successive pops return elements in: position `i` holds the `i`-th newest element |
| Recycler.PopAllAfterAppend | missile.ts:145-150 | `n` pops on a stack ending in `n` elements return them newest first and leave the part below |
| Recycler.PushAllPopAllIsLifo | missile.ts:141-150 | pushing `xs` and then popping once per element returns `xs` reversed and restores the stack: last in, first out |
| Recycler.StackStorage.constructor | missile.ts:139 | the static stack starts empty |
| Recycler.MissileStack.constructor | missile.ts:138-139 | every recycler instance refers to the given shared stack |
| Recycler.MissileStack.Push | missile.ts:141-143 | the shared stack becomes `Pushed(old stack, item)` and nothing else changes |
| Recycler.MissileStack.Pop | missile.ts:145-150 | returns `Popped(old stack).item` and leaves `Popped(old stack).rest`; the `reverse` reads change nothing |
| Orientation.R2I | missile.ts:106 | the integer conversion truncates toward zero: it is within one of its argument, toward zero |
| Orientation.JsRemainder | missile.ts:104-105 | `%` with a positive divisor lies in [0, m) for a non-negative dividend and in (-m, 0] for a negative one, and leaves a dividend strictly between -m and m unchanged |
| Orientation.JsRemainderOdd | missile.ts:104-105 | `%` takes the sign of the dividend: negating the dividend negates the remainder |
| Orientation.JsRemainderPeriodic | missile.ts:104-105 | `%` by m repeats with period m on each side of zero: adding m to a non-negative dividend, or subtracting m from a non-positive one, keeps the remainder |
| Orientation.XyBucket | missile.ts:104-106 | the as-written azimuth bucket of a non-negative angle lies in [0, 420]; the upper end is reachable |
| Orientation.ZBucket | missile.ts:105-106 | the as-written elevation bucket of a non-negative angle lies in [0, 270] |
| Orientation.Key | missile.ts:93-106 | the as-written key of non-negative angles lies in [0, 270 * 420 + 420] |
| Orientation.KeySplits | missile.ts:106 | for an azimuth bucket below 420, `key / 420` and `key % 420` give back the two buckets |
| Orientation.KeyInjective | missile.ts:106 | distinct bucket pairs with azimuth bucket below 420 have distinct keys |
| Orientation.CentersRoundTrip | missile.ts:104-106 | every one of the 270 * 420 bucket pairs is reached: from the middle of each bucket the key is that pair's own key |
| Orientation.XyCenterBucket | missile.ts:104-106 | the middle of each as-written azimuth bucket below 420 falls in that bucket |
| Orientation.ZCenterBucket | missile.ts:105-106 | the middle of each as-written elevation bucket below 270 falls in that bucket |
| Orientation.PrecedenceMergesDirections | missile.ts:104 | as written, the angles 1 and 3 radians land in the same azimuth bucket (210); wrapped modulo 2 pi they land in 66 and 200 |
| Orientation.MixedPiKeyCollision | missile.ts:96-106 | as written, `from(1.999999, 0)` and `from(0, 0.01)` compute the same key, 420 |
| Orientation.Wrap | missile.ts:104-105 | a floored remainder lies in [0, m), leaves a dividend in [0, m) unchanged, and agrees with `%` on non-negative dividends |
| Orientation.IntendedXyBucket | missile.ts:104-106 | the corrected azimuth bucket lies in [0, 420) for every angle |
| Orientation.IntendedZBucket | missile.ts:105-106 | the corrected elevation bucket lies in [0, 270) for every angle |
| Orientation.IntendedKey | missile.ts:106 | the corrected key lies in [0, 113400) for every pair of angles, and `/` and `%` by 420 give back both buckets |
| Orientation.IntendedKeyFullTurn | missile.ts:104-105 | adding a full turn to either angle leaves the corrected key unchanged |
| Orientation.WrapFullTurn | missile.ts:104-105 | the floored remainder is periodic in its divisor |
| Orientation.IntendedCentersRoundTrip | missile.ts:104-106 | from the middle of each bucket the corrected key is that bucket pair's own key |
| Orientation.IntendedXyCenterBucket | missile.ts:104-106 | the middle of each corrected azimuth bucket falls in that bucket |
| Orientation.IntendedZCenterBucket | missile.ts:105-106 | the middle of each corrected elevation bucket falls in that bucket |
| Orientation.DivisionKeepsSign | missile.ts:118-126 | dividing `dz` by the positive norm keeps its sign, so the pitch test `dz > 0` sees the sign of the original `dz` |
| Orientation.NormSigns | missile.ts:113-122 | `N = dx*dx + dy*dy` is never negative and is positive exactly when `dx` or `dy` is nonzero; the squared length is positive exactly when the vector is not zero |
| Orientation.EulerAngles.constructor | missile.ts:95 | the three tables start empty, so every slot reads 0.0 |
| Orientation.EulerAngles.From | missile.ts:103-110 | returns the as-written key and the yaw, pitch and roll stored there, and changes no table; the key is in range and splits back into its buckets as the key lemmas say |
| Orientation.EulerAngles.IntendedFrom | missile.ts:103-110 | the corrected `from`: reads the three tables at a key inside [0, 113400) whose `/` and `%` by 420 are the corrected elevation and azimuth buckets |
| Orientation.EulerAngles.InitAngles | missile.ts:112-134 | a zero squared length writes nothing; a nonzero `N`, or equivalently a nonzero `dx` or `dy`, writes nothing; a zero `N` with a nonzero squared length sets yaw and roll at `key` to 0 and pitch to -bj_PI/2 if `dz > 0`, else bj_PI/2; slots at other keys never change |

## Left out

- `lib/missile.ts`: apart from a function that prints a greeting, the whole file is commented out.
- The `Missile` class fields and constants (missile.ts:7-65) are engine handles that foreign calls create. No logic uses them.
- `Missile.GetLocZ` is a terrain query through host-engine calls.
- `GetDestructableHeight` delegates to a foreign function.
- `GetUnitBodySize`, `GetItemHeight` and `ToggleUnitIndex` are stubs that return constants.
- `EffectHandle` and `Effect` hold a foreign `DestroyEffect` call, an empty stub and trivial accessors.
- Floating point is not modelled: arithmetic is exact over the reals. Rounding of `1.00001 * Math.sqrt(norm)`, and underflow of `dx*dx` to zero for tiny components, are not captured.
- Orientation.EulerAngles.InitAngles: `Math.sqrt` is taken as a parameter `root`. It is required to be the non-negative square root of the squared length.
- Orientation.EulerAngles.InitAngles: the code computes no angles for a direction that is neither zero nor vertical. The model writes nothing there as well, and adds no general formula.
- Orientation.EulerAngles.constructor: `angleTable` is declared but never initialised in the code. The model starts from three empty tables, and a slot never written reads 0.0, as the host's real tables do.
- Orientation.EulerAngles.From: the code assigns the three values to the bare names `yaw`, `pitch` and `roll`, not to the static fields. The model returns them with the key instead.
- Orientation.EulerAngles.InitAngles: the code writes to a bare `angleTable`, not to `EulerAngles.angleTable`. The model writes to the class's own tables, which is what `from` reads.
- The unused static `zSteps`.
- Recycler.MissileStack.constructor: accepts any `StackStorage`. The code has exactly one static `MissileStack.stack`; the model shares it only when callers pass the same storage object to every instance, and does not enforce that there is only one.
- Orientation.XyBucket: states its range for non-negative angles only. `%` keeps the sign of the dividend, so a negative angle can give a negative bucket, down to -420; the function itself computes that case as the code does. Its upper bound is 420, not 419: the code mixes `Math.PI` with `bj_PI`, so 420 is reachable (second finding below).
- Orientation.ZBucket: states its range for non-negative angles only, for the same reason. Its upper bound is 270, not 269.
- Orientation.Key: states its range for non-negative angles only.

## Findings

| source | as written | input that shows it | evidently intended | confidence | as-written member | corrected member |
|---|---|---|---|---|---|---|
| missile.ts:104-105 | `xyAngle % 2.00 * Math.PI` parses as `(xyAngle % 2) * Math.PI`, so the angle wraps modulo 2 rather than modulo 2 pi | azimuth angles 1.0 and 3.0 both give bucket 210 | wrap each angle modulo 2 pi before bucketing: buckets 66 and 200 | high (not executed) | Orientation.PrecedenceMergesDirections | Orientation.EulerAngles.IntendedFrom |
| missile.ts:96-106 | angles are scaled by `Math.PI` but bucket widths use `bj_PI = 3.14159`, so an azimuth bucket can be 420 and spill into the next elevation row | `from(1.999999, 0)` and `from(0, 0.01)` both give key 420 | one value of pi throughout, so buckets stay below 420 and 270 and keys below 113400 and are unique per bucket pair | high (not executed) | Orientation.MixedPiKeyCollision | Orientation.EulerAngles.IntendedFrom |

`Orientation.EulerAngles.From` keeps the key as the code writes it.
`Orientation.EulerAngles.IntendedFrom` is the corrected `from`, built on
`Orientation.IntendedKey`.
