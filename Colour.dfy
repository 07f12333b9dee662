/** Colour helpers: clamping a channel and the blackbody temperature fit. */
module Colour {
  import opened Host

  datatype RgbColor = RgbColor(r: real, g: real, b: real)

  predicate InPixelRange(n: real) {
    0.0 <= n <= 255.0
  }

  /** `pxConstrain`: clamps a channel value into [0, 255], leaving values already
      there untouched. */
  function PxConstrain(n: real): (r: real)
    ensures InPixelRange(r)
    ensures InPixelRange(n) ==> r == n
    ensures n < 0.0 ==> r == 0.0
    ensures n > 255.0 ==> r == 255.0
  {
    if n < 0.0 then 0.0
    else if n > 255.0 then 255.0
    else n
  }

  /** `tempToRgb`: an empirical blackbody fit over t = kelvin / 100. The curve values
      come from the host's `**` and Math.log; only the branch structure and the
      clamping are interpreted here. */
  function TempToRgb(kelvin: real, math: MathFunctions): (c: RgbColor)
    ensures InPixelRange(c.r) && InPixelRange(c.g) && InPixelRange(c.b)
    ensures kelvin / 100.0 <= 66.0 ==> c.r == 255.0
    ensures kelvin / 100.0 >= 66.0 ==> c.b == 255.0
    ensures kelvin / 100.0 <= 19.0 ==> c.b == 0.0
  {
    var hectokelvin := kelvin / 100.0;
    var red :=
      if hectokelvin <= 66.0 then 255.0
      else PxConstrain(329.698727446 * math.pow(hectokelvin - 60.0, -0.1332047592));
    var green :=
      if hectokelvin <= 66.0
      then PxConstrain(99.4708025861 * math.log(hectokelvin) - 161.1195681661)
      else PxConstrain(288.1221695283 * math.pow(hectokelvin - 60.0, -0.0755148492));
    var blue :=
      if hectokelvin >= 66.0 then 255.0
      else if hectokelvin <= 19.0 then 0.0
      else PxConstrain(138.5177312231 * math.log(hectokelvin - 10.0) - 305.0447927307);
    RgbColor(red, green, blue)
  }
}
