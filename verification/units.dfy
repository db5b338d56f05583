/** Conversion between air temperature (degrees Celsius) and "effective gravity",
    the buoyancy of air relative to air at the night-time minimum temperature.
    The map is affine: g = gReal * (T - tNight) / (273 + tNight). */
module Units {

  /** Effective gravity of air at temperature `temp`. */
  function GFromTemp(gReal: real, tNight: real, temp: real): (g: real)
    requires 273.0 + tNight != 0.0
    ensures gReal != 0.0 ==> (g == 0.0 <==> temp == tNight)
  {
    var k := 273.0 + tNight;
    var r := gReal * (temp - tNight) / k;
    assert r * k == gReal * (temp - tNight);
    r
  }

  /** Temperature of air whose effective gravity is `g`. */
  function TempFromG(gReal: real, tNight: real, g: real): (temp: real)
    requires gReal != 0.0
    ensures 273.0 + tNight != 0.0 ==> (temp == tNight <==> g == 0.0)
  {
    tNight + (g / gReal) * (273.0 + tNight)
  }

  /** Reading a gravity back as a temperature and converting again gives the same gravity. */
  lemma GravityRoundTrip(gReal: real, tNight: real, g: real)
    requires gReal != 0.0 && 273.0 + tNight != 0.0
    ensures GFromTemp(gReal, tNight, TempFromG(gReal, tNight, g)) == g
  {
    var k := 273.0 + tNight;
    var q := g / gReal;
    assert TempFromG(gReal, tNight, g) - tNight == q * k;
    assert gReal * (q * k) == (gReal * q) * k;
    assert gReal * q == g;
    assert (g * k) / k == g;
  }

  /** Converting a temperature to a gravity and back gives the same temperature. */
  lemma TemperatureRoundTrip(gReal: real, tNight: real, temp: real)
    requires gReal != 0.0 && 273.0 + tNight != 0.0
    ensures TempFromG(gReal, tNight, GFromTemp(gReal, tNight, temp)) == temp
  {
    var k := 273.0 + tNight;
    var g := GFromTemp(gReal, tNight, temp);
    assert g * k == gReal * (temp - tNight);
    assert (g / gReal) * k == (g * k) / gReal;
    assert (gReal * (temp - tNight)) / gReal == temp - tNight;
  }

  /** With positive gravity and an absolute night temperature above zero kelvin,
      warmer air is strictly more buoyant, and conversely. */
  lemma GravityStrictlyIncreasing(gReal: real, tNight: real, t1: real, t2: real)
    requires gReal > 0.0 && 273.0 + tNight > 0.0
    ensures t1 < t2 <==> GFromTemp(gReal, tNight, t1) < GFromTemp(gReal, tNight, t2)
  {
    var k := 273.0 + tNight;
    var d := GFromTemp(gReal, tNight, t2) - GFromTemp(gReal, tNight, t1);
    assert d * k == gReal * (t2 - t1);
    if t1 < t2 {
      assert gReal * (t2 - t1) > 0.0;
    } else {
      assert gReal * (t2 - t1) <= 0.0;
    }
  }

  /** The inverse map is strictly increasing under the same conditions. */
  lemma TemperatureStrictlyIncreasing(gReal: real, tNight: real, g1: real, g2: real)
    requires gReal > 0.0 && 273.0 + tNight > 0.0
    ensures g1 < g2 <==> TempFromG(gReal, tNight, g1) < TempFromG(gReal, tNight, g2)
  {
    TemperatureRoundTrip(gReal, tNight, 0.0);
    GravityRoundTrip(gReal, tNight, g1);
    GravityRoundTrip(gReal, tNight, g2);
    GravityStrictlyIncreasing(gReal, tNight, TempFromG(gReal, tNight, g1), TempFromG(gReal, tNight, g2));
  }
}
