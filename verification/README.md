# Integer points of clipper-rs

A model of the integer point family of the clipper (`src/point.rs`): the
coordinate scalar `CInt`, the `IntPoint` capability with its one shared piece of
logic, the inverse slope `get_dx`, and the two concrete variants `IntPoint2d`
and `IntPoint3d`. Everything is in one Dafny module, `Point` (`point.dfy`).

- `CInt` is the subset of `int` held by a 64-bit signed integer, the default
  build's width.
- Both point types are Rust `Copy` values with derived structural equality, so
  they are Dafny datatypes, and Dafny's `==` is the derived `PartialEq`.
  Constructors and getters become functions. A setter `p.set_x(v)`, which
  overwrites one field of the place `p` through `&mut self`, is written
  `p := p.SetX(v)`. Each setter's contract says which accessor changes and
  that every other accessor reports what it did before.
- `InverseSlope` is the trait's default `get_dx`, written once over what the
  accessors report. The per-type `GetDx` members call it through their getters,
  as the default method does. Its result is `Dx`: `Horizontal` stands for the
  external `HORIZONTAL` constant, and `Slope(dx)` holds the exact quotient of the
  x difference by the y difference, both taken as `other - self`. The contract
  does not spell out the division. It says the result is `Horizontal` exactly
  when the y coordinates agree. Otherwise it says `dx` times the y difference
  gives back the x difference, which fixes `dx` and its sign.
- The differences are computed in `CInt` before the cast, so they must not
  overflow. `DxDefined` states this, and only for the branch that computes them:
  when the y coordinates agree, nothing is subtracted and any x coordinates are
  accepted. `DefinednessIsNotSymmetric` shows that this bound is one-sided at
  the edge of the range. For self `(i64::MIN, 0)` and other `(0, 1)`,
  `0 - i64::MIN` overflows even though the reverse call is fine.
- The lemmas state what the sweep relies on. Swapping the points gives the same
  slope. Two non-horizontal edges from a common point have equal slopes
  exactly when the three points are collinear. Of two upward edges from one
  point, the first has the smaller slope exactly when the second endpoint lies
  to the right of the first edge's line. An upward slope has the sign of its x
  step. z plays no part, and both variants agree.

## Model

| member | source | states |
|---|---|---|
| `Point.InverseSlope` | src/point.rs:16-23 | `Horizontal` exactly when the two y coordinates are equal. Otherwise a slope `dx` with `dx * (other.y - self.y) == other.x - self.x`: the quotient of the `other - self` differences, in that order. Requires that those differences fit in `CInt` when y differs. |
| `Point.DxDefined` | src/point.rs:20-21 | always holds when the y coordinates are equal (nothing is subtracted). Otherwise it holds exactly when both `other - self` differences fit in `CInt`. |
| `Point.InverseSlopeIsQuotient` | src/point.rs:20-21 | a sloped result is exactly `(other.x - self.x) / (other.y - self.y)`, in that order |
| `Point.HalfRangeIsDefined` | src/point.rs:1-21 | points whose coordinates all lie in [-2^62, 2^62) never make the `CInt` subtractions overflow |
| `Point.IntPoint2d.GetX` | src/point.rs:35 | reports the stored x |
| `Point.IntPoint2d.GetY` | src/point.rs:36 | reports the stored y |
| `Point.IntPoint2d.GetZ` | src/point.rs:37 | always `None`, whatever the point |
| `Point.IntPoint3d.GetX` | src/point.rs:52 | reports the stored x |
| `Point.IntPoint3d.GetY` | src/point.rs:53 | reports the stored y |
| `Point.IntPoint3d.GetZ` | src/point.rs:54 | always `Some` of the stored z |
| `Point.IntPoint2d.New` | src/point.rs:34-37 | the new point reports the given x and y, and z absent |
| `Point.IntPoint2d.SetX` | src/point.rs:35-38 | afterwards x reads back the new value; y and z are as before |
| `Point.IntPoint2d.SetY` | src/point.rs:35-39 | afterwards y reads back the new value; x and z are as before |
| `Point.IntPoint2d.SetZ` | src/point.rs:37-40 | a no-op: the point equals the old one and z is still absent |
| `Point.IntPoint2d.GetDx` | src/point.rs:16-23 | the shared inverse-slope rule, in terms of the 2D accessors |
| `Point.IntPoint3d.New` | src/point.rs:51-54 | the new point reports the given x and y, and z present as 0 |
| `Point.IntPoint3d.SetX` | src/point.rs:52-55 | afterwards x reads back the new value; y and z are as before |
| `Point.IntPoint3d.SetY` | src/point.rs:52-56 | afterwards y reads back the new value; x and z are as before |
| `Point.IntPoint3d.SetZ` | src/point.rs:54-57 | z round-trips: afterwards it reads back `Some(v)`; x and y are as before |
| `Point.IntPoint3d.GetDx` | src/point.rs:16-23 | the shared inverse-slope rule, in terms of the 3D accessors |
| `Point.EqualityIsStructural` | src/point.rs:26-48 | two constructed points are equal exactly when all their coordinates are, for both variants |
| `Point.HorizontalIgnoresX` | src/point.rs:17-18 | points with equal y give `Horizontal` whatever their x coordinates |
| `Point.InverseSlopeSwap` | src/point.rs:20-21 | swapping the two points negates both differences and leaves the result, and so the classification, unchanged |
| `Point.DefinednessIsNotSymmetric` | src/point.rs:20-21 | there are two points for which `get_dx` is computable in one order and overflows `CInt` in the other, e.g. self (0,1), other (i64::MIN,0) |
| `Point.InverseSlopeEqualIffCollinear` | src/point.rs:16-23 | two non-horizontal edges from one point have equal inverse slopes exactly when their cross product is zero (the points are collinear) |
| `Point.InverseSlopeOrdersUpwardEdges` | src/point.rs:16-23 | for two upward edges from one point, the first slope is smaller exactly when the cross product says the second endpoint is to its right |
| `Point.InverseSlopeSignUpward` | src/point.rs:20-21 | on an upward edge the slope is negative exactly when x decreases and zero exactly when x is unchanged |
| `Point.GetDxIgnoresZ` | src/point.rs:16-23 | the z coordinates of two 3D points do not change their inverse slope |
| `Point.GetDxAgreesAcrossVariants` | src/point.rs:15-23 | 2D and 3D points with the same x and y have the same inverse slope |
| `Point.Examples` | src/point.rs:16-23 | (0,0) to (10,5) gives slope 2. (0,7) to (10,7) is horizontal. A 3D point at (1,2) with z set to 9 reports z 9. Setting z on a 2D point leaves it equal. |

## Left out

- `Point.InverseSlope`: returns the exact real quotient. The source converts each `CInt` difference to `f64` and divides in floating point, which rounds. They agree whenever both differences lie within ±2^53 and the exact quotient is an `f64`. Outside that, the `f64` result may differ from the exact one.
- `Point.InverseSlope`: the numeric value of `HORIZONTAL` is defined in `consts`, which is not part of this model. It is the separate constructor `Horizontal`, distinct from every slope by construction.
- The `use_int32` build (`CInt = i32`) is not modelled. Only the default 64-bit width is fixed, as `CINT_MIN`/`CINT_MAX`.
- Overflow of the `CInt` subtraction in `get_dx` is excluded by the precondition `DxDefined`. The source panics there in debug builds and wraps in release builds, and neither behaviour is modelled.
- `#[repr(packed)]` memory layout: layout only, with no effect on values.
- The `DoublePoint` trait and the `DoublePoint2d`/`DoublePoint3d` types (src/point.rs:60-95, 106-131) are not modelled because they are floating-point arithmetic.
- The `From<IntPoint2d>`/`From<IntPoint3d>` conversions to double points (src/point.rs:97-121) are not modelled because they are int-to-f64 casts.
