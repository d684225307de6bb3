/** `check_dimensions_ok`: the frame sizes a plugin instance may be constructed with. */
module Dimensions {
  import opened Wrappers
  import opened Failures

  const MaxImageDimension: int := 2048

  /** The condition asserted by `check_dimensions_ok`. */
  predicate DimensionsOk(width: int, height: int)
  {
    MaxImageDimension >= width > 0 && MaxImageDimension >= height > 0 && width % 8 == 0 && height % 8 == 0
  }

  /** Accepts (width, height) and returns it unchanged, or fails with `InvalidDimensions`. */
  function CheckDimensionsOk(width: int, height: int): (r: Result<(int, int), Error>)
    ensures r.Success? ==> r.value == (width, height)
    ensures r.Failure? ==> r.error == InvalidDimensions
  {
    if DimensionsOk(width, height) then Success((width, height)) else Failure(InvalidDimensions)
  }

  /** The accepted sizes, counted in blocks of eight pixels: both sides are between
      one and 256 blocks. */
  lemma {:induction false} CheckDimensionsOkInBlocks(width: int, height: int)
    ensures CheckDimensionsOk(width, height).Success? <==>
              exists bw, bh :: 1 <= bw <= 256 && 1 <= bh <= 256 && width == 8 * bw && height == 8 * bh
  {
    if CheckDimensionsOk(width, height).Success? {
      var bw, bh := width / 8, height / 8;
      assert width == 8 * bw && height == 8 * bh;
    }
  }
}
