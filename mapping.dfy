/** `map`: the linear range remap of p5.js, used by `updateMosaic` wherever
    a grid index or a brightness becomes a pixel coordinate or a bar
    length. */
module Mapping {

  /** A JavaScript number as far as `map` can produce one: a finite value,
      or the NaN / Infinity that an empty input range yields. */
  datatype Num = Finite(v: real) | NonFinite

  /** `map(value, start1, stop1, start2, stop2)`: sends `start1` to `start2`
      and `stop1` to `stop2`, affinely, without clamping. A zero-width input
      range divides by zero, which JavaScript answers with NaN or Infinity. */
  function Map(value: real, start1: real, stop1: real, start2: real, stop2: real): (r: Num)
    ensures r.Finite? <==> start1 != stop1
  {
    if start1 == stop1 then NonFinite
    else Finite((value - start1) / (stop1 - start1) * (stop2 - start2) + start2)
  }

  /** The defining relation of a finite result: the point `(value, r)` lies
      on the line through `(start1, start2)` and `(stop1, stop2)`. */
  lemma MapOnLine(value: real, start1: real, stop1: real, start2: real, stop2: real)
    requires start1 != stop1
    ensures var r := Map(value, start1, stop1, start2, stop2).v;
      (r - start2) * (stop1 - start1) == (value - start1) * (stop2 - start2)
  {
    var q := (value - start1) / (stop1 - start1);
    assert q * (stop1 - start1) == value - start1;
    assert q * (stop2 - start2) * (stop1 - start1) == q * (stop1 - start1) * (stop2 - start2);
  }

  /** The ends of the input range land on the ends of the output range. */
  lemma MapEndpoints(start1: real, stop1: real, start2: real, stop2: real)
    requires start1 != stop1
    ensures Map(start1, start1, stop1, start2, stop2) == Finite(start2)
    ensures Map(stop1, start1, stop1, start2, stop2) == Finite(stop2)
  {
  }

  /** `map` is affine in `value`: it commutes with every affine combination
      of two inputs. */
  lemma MapAffine(v: real, w: real, t: real, start1: real, stop1: real, start2: real, stop2: real)
    requires start1 != stop1
    ensures Map(t * v + (1.0 - t) * w, start1, stop1, start2, stop2).v
         == t * Map(v, start1, stop1, start2, stop2).v + (1.0 - t) * Map(w, start1, stop1, start2, stop2).v
  {
    var d := stop1 - start1;
    var e := stop2 - start2;
    var a := (v - start1) / d;
    var b := (w - start1) / d;
    var c := (t * v + (1.0 - t) * w - start1) / d;
    assert c == t * a + (1.0 - t) * b by {
      assert t * v + (1.0 - t) * w - start1 == t * (v - start1) + (1.0 - t) * (w - start1);
    }
    calc {
      c * e + start2;
      (t * a + (1.0 - t) * b) * e + start2;
      t * (a * e + start2) + (1.0 - t) * (b * e + start2);
    }
  }

  /** Mapping back from the output range to the input range recovers the
      value, whenever neither range is empty. */
  lemma MapRoundTrip(value: real, start1: real, stop1: real, start2: real, stop2: real)
    requires start1 != stop1 && start2 != stop2
    ensures Map(Map(value, start1, stop1, start2, stop2).v, start2, stop2, start1, stop1) == Finite(value)
  {
    var m := Map(value, start1, stop1, start2, stop2).v;
    var back := Map(m, start2, stop2, start1, stop1).v;
    MapOnLine(value, start1, stop1, start2, stop2);
    MapOnLine(m, start2, stop2, start1, stop1);
    assert (m - start2) * (stop1 - start1) == (value - start1) * (stop2 - start2);
    assert (back - start1) * (stop2 - start2) == (m - start2) * (stop1 - start1);
    assert (back - start1) * (stop2 - start2) == (value - start1) * (stop2 - start2);
    assert back - start1 == value - start1;
  }

  /** Over an increasing input range, `map` preserves order when the output
      range increases and reverses it when the output range decreases. */
  lemma MapMonotone(v: real, w: real, start1: real, stop1: real, start2: real, stop2: real)
    requires start1 < stop1 && v <= w
    ensures start2 <= stop2 ==> Map(v, start1, stop1, start2, stop2).v <= Map(w, start1, stop1, start2, stop2).v
    ensures stop2 <= start2 ==> Map(w, start1, stop1, start2, stop2).v <= Map(v, start1, stop1, start2, stop2).v
  {
    var d := stop1 - start1;
    var a := (v - start1) / d;
    var b := (w - start1) / d;
    assert a <= b by {
      assert b - a == (w - v) / d;
    }
    var e := stop2 - start2;
    assert Map(w, start1, stop1, start2, stop2).v - Map(v, start1, stop1, start2, stop2).v == (b - a) * e;
    if start2 <= stop2 {
      assert 0.0 <= (b - a) * e;
    } else {
      assert (b - a) * e <= 0.0;
    }
  }

  /** No clamping: over increasing ranges the result lies in the output
      range exactly when the value lies in the input range, so a value
      outside `[start1, stop1]` lands outside `[start2, stop2]`. */
  lemma MapInRangeIff(value: real, start1: real, stop1: real, start2: real, stop2: real)
    requires start1 < stop1 && start2 < stop2
    ensures start1 <= value <= stop1 <==> start2 <= Map(value, start1, stop1, start2, stop2).v <= stop2
  {
    MapEndpoints(start1, stop1, start2, stop2);
    var m := Map(value, start1, stop1, start2, stop2).v;
    if value < start1 {
      MapMonotone(value, start1, start1, stop1, start2, stop2);
      assert m != start2 by {
        if m == start2 {
          MapRoundTrip(value, start1, stop1, start2, stop2);
          MapRoundTrip(start1, start1, stop1, start2, stop2);
        }
      }
    } else if stop1 < value {
      MapMonotone(stop1, value, start1, stop1, start2, stop2);
      assert m != stop2 by {
        if m == stop2 {
          MapRoundTrip(value, start1, stop1, start2, stop2);
          MapRoundTrip(stop1, start1, stop1, start2, stop2);
        }
      }
    } else {
      MapMonotone(start1, value, start1, stop1, start2, stop2);
      MapMonotone(value, stop1, start1, stop1, start2, stop2);
    }
  }
}
