/** Shared vocabulary of the evaluation engine: labels, the engine's error
    kinds, 32-bit unsigned arithmetic, and label images and image stacks. */
module Base {

  /** A label as stored in a label volume (a size_t in the engine). */
  type Label = nat

  datatype Option<T> = None | Some(value: T)

  /** The exceptions the engine throws. */
  datatype Error =
    | UsageError          // a member was used before the object was set up
    | SizeMismatchError   // two image stacks (or two sections) differ in size
    | OutOfRange          // std::map::at on a missing key

  datatype Result<T> = Ok(value: T) | Err(error: Error)

  datatype Outcome = Pass | Fail(error: Error)

  /** 2^32: the modulus of the engine's `unsigned int` counters. */
  const U32: nat := 0x1_0000_0000

  /** Reduce an exact integer to the value an `unsigned int` holds, by
      adding or subtracting 2^32 until it is in range. */
  function Wrap32(x: int): (r: nat)
    ensures r < U32
    ensures 0 <= x < U32 ==> r == x
    decreases if x < 0 then 1 else 0, if x < 0 then -x else x
  {
    if x < 0 then Wrap32(x + U32)
    else if x < U32 then x
    else Wrap32(x - U32)
  }

  /** The reduction is the remainder modulo 2^32. */
  lemma {:induction false} Wrap32IsModulo(x: int)
    ensures Wrap32(x) == x % U32
    decreases if x < 0 then 1 else 0, if x < 0 then -x else x
  {
    if x < 0 {
      Wrap32IsModulo(x + U32);
      ModuloShift(x, 1);
    } else if x >= U32 {
      Wrap32IsModulo(x - U32);
      ModuloShift(x - U32, 1);
    }
  }

  /** `unsigned int` addition of two in-range values: at most one
      wrap-around. */
  function Add32(a: nat, b: nat): (r: nat)
    requires a < U32 && b < U32
    ensures r < U32
  {
    if a + b < U32 then a + b else a + b - U32
  }

  lemma Add32IsWrap(a: nat, b: nat)
    requires a < U32 && b < U32
    ensures Add32(a, b) == Wrap32(a + b)
  {
  }

  /** Reducing early or late gives the same unsigned value. */
  lemma Wrap32Add(x: int, y: int)
    ensures Wrap32(Wrap32(x) + y) == Wrap32(x + y)
  {
    Wrap32IsModulo(x);
    Wrap32IsModulo(Wrap32(x) + y);
    Wrap32IsModulo(x + y);
    var q := x / U32;
    assert x == q * U32 + Wrap32(x);
    assert x + y == q * U32 + (Wrap32(x) + y);
    ModuloShift(Wrap32(x) + y, q);
  }

  /** An unsigned counter holding the wrapped value of base, incremented
      by c, holds the wrapped value of base + c. */
  lemma CounterAdd(n: nat, base: int, c: nat)
    requires n == Wrap32(base) && c < U32
    ensures Add32(n, c) == Wrap32(base + c)
  {
    Add32IsWrap(n, c);
    Wrap32Add(base, c);
  }

  lemma ModuloShift(x: int, q: int)
    ensures (q * U32 + x) % U32 == x % U32
  {
  }

  lemma PixelIndexInRange(x: nat, y: nat, width: nat, height: nat)
    requires x < width && y < height
    ensures x + y * width < width * height
  {
    var k: nat := height - (y + 1);
    assert height * width == (y + 1) * width + k * width;
    assert x + y * width < (y + 1) * width;
  }

  /** Distinct pixels of a row-major image have distinct indices. */
  lemma PixelIndexInjective(x1: nat, y1: nat, x2: nat, y2: nat, width: nat)
    requires x1 < width && x2 < width && x1 + y1 * width == x2 + y2 * width
    ensures x1 == x2 && y1 == y2
  {
    if y1 < y2 {
      RowsApart(x1, y1, x2, y2, width);
    } else if y2 < y1 {
      RowsApart(x2, y2, x1, y1, width);
    }
  }

  lemma RowsApart(x1: nat, y1: nat, x2: nat, y2: nat, width: nat)
    requires x1 < width && y1 < y2
    ensures x1 + y1 * width < x2 + y2 * width
  {
    var k: nat := y2 - (y1 + 1);
    assert y2 * width == (y1 + 1) * width + k * width;
    assert (y1 + 1) * width == y1 * width + width;
  }

  /** A 2D label image; pixel (x, y) is stored at x + y * width, the x
      coordinate running fastest, as in the engine's image class. */
  datatype Image = Image(width: nat, height: nat, pixels: seq<Label>) {

    predicate Valid() {
      |pixels| == width * height
    }

    /** The number of pixels (Image::size()). */
    function Size(): nat {
      |pixels|
    }

    function At(x: nat, y: nat): Label
      requires Valid() && x < width && y < height
    {
      PixelIndexInRange(x, y, width, height);
      pixels[x + y * width]
    }

    /** The image with pixel (x, y) set to v. */
    function Set(x: nat, y: nat, v: Label): (r: Image)
      requires Valid() && x < width && y < height
      ensures r.Valid() && r.width == width && r.height == height
      ensures forall x': nat, y': nat | x' < width && y' < height ::
        r.At(x', y') == if x' == x && y' == y then v else At(x', y')
    {
      PixelIndexInRange(x, y, width, height);
      var r := Image(width, height, pixels[x + y * width := v]);
      forall x': nat, y': nat | x' < width && y' < height
        ensures r.At(x', y') == if x' == x && y' == y then v else At(x', y')
      {
        PixelIndexInRange(x', y', width, height);
        if x' + y' * width == x + y * width {
          PixelIndexInjective(x', y', x, y, width);
        }
      }
      r
    }
  }

  /** An image of the given extents with every pixel v. */
  function Filled(width: nat, height: nat, v: Label): (r: Image)
    ensures r.Valid() && r.width == width && r.height == height
    ensures forall x: nat, y: nat | x < width && y < height :: r.At(x, y) == v
  {
    var r := Image(width, height, seq(width * height, _ => v));
    assert forall x: nat, y: nat | x < width && y < height :: r.At(x, y) == v by {
      forall x: nat, y: nat | x < width && y < height ensures r.At(x, y) == v {
        PixelIndexInRange(x, y, width, height);
      }
    }
    r
  }

  /** A stack of sections along z with a common width and height and a voxel
      resolution per axis. */
  datatype ImageStack = ImageStack(
    sections: seq<Image>,
    width: nat,
    height: nat,
    resolutionX: real,
    resolutionY: real,
    resolutionZ: real)
  {
    /** The number of sections (ImageStack::size()). */
    function Size(): nat {
      |sections|
    }

    predicate Valid() {
      forall z | 0 <= z < |sections| ::
        sections[z].Valid() && sections[z].width == width && sections[z].height == height
    }

    predicate InBounds(x: int, y: int, z: int) {
      0 <= x < width && 0 <= y < height && 0 <= z < |sections|
    }

    function At(x: int, y: int, z: int): Label
      requires Valid() && InBounds(x, y, z)
    {
      sections[z].At(x, y)
    }

    /** The stack with voxel (x, y, z) set to v. */
    function Set(x: int, y: int, z: int, v: Label): (r: ImageStack)
      requires Valid() && InBounds(x, y, z)
      ensures r.Valid() && r.width == width && r.height == height && r.Size() == Size()
      ensures forall x', y', z' | InBounds(x', y', z') ::
        r.At(x', y', z') == if x' == x && y' == y && z' == z then v else At(x', y', z')
    {
      ImageStack(sections[z := sections[z].Set(x, y, v)], width, height, resolutionX, resolutionY, resolutionZ)
    }
  }

  /** depth sections of width x height pixels, all 0, at the default
      resolution of one unit per voxel edge. */
  function Blank(width: nat, height: nat, depth: nat): (r: ImageStack)
    ensures r.Valid() && r.width == width && r.height == height && r.Size() == depth
    ensures forall x, y, z | r.InBounds(x, y, z) :: r.At(x, y, z) == 0
  {
    ImageStack(seq(depth, _ => Filled(width, height, 0)), width, height, 1.0, 1.0, 1.0)
  }
}
