/** The coherent-noise heightmap of generate_perlin_noise: a height x width grid whose
    cell [y, x] is the fractal noise function evaluated at (x / scale, y / scale).
    The noise library is not part of this model; it is passed in as an arbitrary
    function of the point and the fixed fractal parameters. */
module NoiseField {

  /** The keyword arguments the generator passes to the noise function. */
  datatype NoiseParams = NoiseParams(
    octaves: nat,
    persistence: real,
    lacunarity: real,
    repeatX: nat,
    repeatY: nat,
    base: nat)

  /** Six octaves, persistence 0.5, lacunarity 2.0, tiles of 1024 x 1024, base 0. */
  const Fractal: NoiseParams := NoiseParams(6, 0.5, 2.0, 1024, 1024, 0)

  /** The noise value the generator stores at column x, row y. */
  function CellNoise(noise: (real, real, NoiseParams) -> real, scale: real, x: nat, y: nat): real
    requires scale != 0.0
  {
    noise(x as real / scale, y as real / scale, Fractal)
  }

  /** Fills a fresh height x width grid row by row, as the source's nested loops do. */
  method GeneratePerlinNoise(width: nat, height: nat, scale: real,
                             noise: (real, real, NoiseParams) -> real)
    returns (data: array2<real>)
    requires height > 0 && width > 0 ==> scale != 0.0
    ensures fresh(data)
    ensures data.Length0 == height && data.Length1 == width
    ensures forall y, x :: 0 <= y < height && 0 <= x < width ==>
              data[y, x] == CellNoise(noise, scale, x, y)
  {
    data := new real[height, width]((_, _) => 0.0);
    for y := 0 to height
      invariant forall y', x :: 0 <= y' < y && 0 <= x < width ==>
                  data[y', x] == CellNoise(noise, scale, x, y')
    {
      for x := 0 to width
        invariant forall y', x' :: 0 <= y' < y && 0 <= x' < width ==>
                    data[y', x'] == CellNoise(noise, scale, x', y')
        invariant forall x' :: 0 <= x' < x ==> data[y, x'] == CellNoise(noise, scale, x', y)
      {
        data[y, x] := CellNoise(noise, scale, x, y);
      }
    }
  }
}
