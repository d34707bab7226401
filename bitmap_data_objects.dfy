/**
 * The values that the AVM1 `flash.display.BitmapData` methods receive and
 * return, the bitmap object itself, and the native bitmap operations those
 * methods hand their arguments to.
 */
module BitmapDataObjects {
  import opened Wrappers

  /** Rust's fixed-width integers, as the source coerces its arguments to them. */
  type u8 = x: int | 0 <= x < 0x100
  type u32 = x: int | 0 <= x < 0x1_0000_0000
  type i32 = x: int | -0x8000_0000 <= x < 0x8000_0000

  /** `n as u32`: the low 32 bits of `n`. */
  function AsU32(n: int): (r: u32)
    ensures (n - r) % 0x1_0000_0000 == 0
    ensures 0 <= n < 0x1_0000_0000 ==> r == n
  {
    n % 0x1_0000_0000
  }

  /** `n as u8`: the low 8 bits of `n`. */
  function AsU8(n: int): (r: u8)
    ensures (n - r) % 0x100 == 0
    ensures 0 <= n < 0x100 ==> r == n
  {
    n % 0x100
  }

  /** The result of 32-bit two's-complement arithmetic that yields `n` mathematically. */
  function WrapI32(n: int): (r: i32)
    ensures (n - r) % 0x1_0000_0000 == 0
    ensures -0x8000_0000 <= n < 0x8000_0000 ==> r == n
  {
    var low := n % 0x1_0000_0000;
    if low < 0x8000_0000 then low else low - 0x1_0000_0000
  }

  function Min(a: int, b: int): int { if a <= b then a else b }
  function Max(a: int, b: int): int { if a >= b then a else b }

  datatype I32Point = I32Point(x: i32, y: i32)
  datatype U32Point = U32Point(x: u32, y: u32)
  datatype I32Rect = I32Rect(x: i32, y: i32, width: i32, height: i32)
  datatype U32Rect = U32Rect(x: u32, y: u32, width: u32, height: u32)

  /**
   * The channel set `noise` works on: the default RGB set, or the set
   * that `ChannelOptions::from_bits_truncate` makes of a byte.
   */
  datatype ChannelOptions = Rgb | FromBits(byte: u8)

  /** The comparison operators `threshold` recognises. */
  datatype ThresholdOperation = LessThan | LessThanOrEqual | GreaterThan | GreaterThanOrEqual | Equal | NotEqual

  /**
   * A ColorTransform object; its multipliers and offsets (floating point)
   * travel unchanged to the native operation and are not modelled.
   */
  datatype ColorTransformHandle = ColorTransformHandle(id: nat)

  /**
   * A bitmap's data. The pixel values are computed by native code outside
   * this model; `applied` records, in order, every native operation that
   * reached this bitmap.
   */
  class BitmapData {
    var width: u32
    var height: u32
    var transparent: bool
    var disposed: bool
    var applied: seq<Operation>

    constructor (width: u32, height: u32, transparent: bool)
      ensures this.width == width && this.height == height && this.transparent == transparent
      ensures !disposed && applied == []
    {
      this.width := width;
      this.height := height;
      this.transparent := transparent;
      disposed := false;
      applied := [];
    }

    /** Let the native operation `op` reach this bitmap. */
    method Apply(op: Operation)
      modifies this
      ensures Applied(this, op)
    {
      match op {
        case InitPixels(w, h, t, _) =>
          width, height, transparent := w, h, t;
        case Dispose =>
          disposed := true;
        case _ =>
      }
      applied := applied + [op];
    }
  }

  /**
   * `b` went from its old state to its current one by `op` reaching it:
   * the operation is appended to the trace, `InitPixels` sets the size and
   * the transparency, `Dispose` marks the bitmap disposed, and nothing else
   * changes. The disposed flag is never cleared.
   */
  twostate predicate Applied(b: BitmapData, op: Operation)
    reads b
  {
    && b.applied == old(b.applied) + [op]
    && b.disposed == (old(b.disposed) || op.Dispose?)
    && (op.InitPixels? ==> b.width == op.width && b.height == op.height && b.transparent == op.transparent)
    && (!op.InitPixels? ==> b.width == old(b.width) && b.height == old(b.height) && b.transparent == old(b.transparent))
  }

  /** The native operations the script methods hand their arguments to. */
  datatype Operation =
    | InitPixels(width: u32, height: u32, transparent: bool, fillColor: i32)
    | Dispose
    | GetPixel(x: u32, y: u32)
    | GetPixel32(x: u32, y: u32)
    | SetPixel(x: u32, y: u32, color: i32)
    | SetPixel32(x: u32, y: u32, color: i32)
    | CopyChannel(clampedDest: U32Point, channelRect: U32Rect, source: BitmapData, sourceChannel: i32, destChannel: i32)
    | FillRect(rect: I32Rect, color: i32)
    | Clone
    | FloodFill(x: u32, y: u32, color: i32)
    | Noise(randomSeed: i32, low: u8, high: u8, channels: ChannelOptions, grayScale: bool)
    | ColorTransform(xMin: u32, yMin: u32, xMax: u32, yMax: u32, transform: ColorTransformHandle)
    | ColorBoundsRect(findColor: bool, boundsMask: i32, color: i32)
    | HitTestBitmapData(topLeft: I32Point, sourceThreshold: u32, other: BitmapData, secondPoint: I32Point, secondThreshold: u32)
    | HitTestPoint(sourceThreshold: u32, point: I32Point)
    | HitTestRectangle(sourceThreshold: u32, point: I32Point, size: I32Point)
    | CopyPixels(source: BitmapData, sourceRect: I32Rect, dest: I32Point, mergeAlpha: bool)
    | CopyPixelsWithAlphaSource(source: BitmapData, sourceRect: I32Rect, dest: I32Point, alphaBitmap: BitmapData, alphaPoint: I32Point, mergeAlpha: bool)
    | Merge(source: BitmapData, sourceRect: I32Rect, dest: I32Point, redMultiplier: i32, greenMultiplier: i32, blueMultiplier: i32, alphaMultiplier: i32)
    | PaletteMap(source: BitmapData, sourceRect: I32Rect, dest: I32Point, red: seq<u32>, green: seq<u32>, blue: seq<u32>, alpha: seq<u32>)
    | Scroll(dx: i32, dy: i32)
    | Threshold(source: BitmapData, sourceRect: I32Rect, dest: I32Point, operation: ThresholdOperation, threshold: u32, colour: i32, mask: u32, copySource: bool)
    | Compare(other: BitmapData)

  /** An AVM1 object as the bitmap methods distinguish them. */
  datatype Obj =
    | BitmapObject(bmd: BitmapData)
    | ColorTransformObject(transform: ColorTransformHandle)
    | RectangleObject(x: int, y: int, width: int, height: int)
    | PlainObject

  /** An AVM1 value as the bitmap methods return them. */
  datatype Value = Undefined | Number(n: int) | Bool(b: bool) | Object(obj: Obj)

  /** The heap an object's bitmap check reads. */
  function Footprint(o: Obj): set<object>
  {
    if o.BitmapObject? then {o.bmd} else {}
  }

  /**
   * `o` is a BitmapData object that has not been disposed: the check every
   * script method except the constructor makes of its receiver.
   */
  predicate IsLive(o: Obj)
    reads Footprint(o)
    ensures IsLive(o) ==> o.BitmapObject? && Footprint(o) == {o.bmd}
    ensures o.BitmapObject? && o.bmd.disposed ==> !IsLive(o)
  {
    o.BitmapObject? && !o.bmd.disposed
  }

  /** What a native operation reports back, for those whose result is returned. */
  datatype OpAnswer =
    | NoAnswer
    | Colour(color: i32)
    | Hit(hit: bool)
    | Count(count: u32)
    | Difference(diff: Option<BitmapData>)
    | Copy(copy: BitmapData)
    | Bounds(x: u32, y: u32, width: u32, height: u32)

  /** The bitmap a native answer hands back, if any. */
  function AnswerFootprint(a: OpAnswer): set<object>
  {
    match a
    case Copy(c) => {c}
    case Difference(Some(d)) => {d}
    case _ => {}
  }

  /**
   * `a` is what the native operation `op` on `receiver` can answer: a
   * colour for a pixel read, a hit flag for a hit test, a pixel count for
   * `threshold`, a rectangle for a bounds search, a new bitmap for `clone`,
   * no difference or a new difference bitmap for `compare`, and nothing for
   * every other operation. A new bitmap is live and is neither the
   * receiver nor the bitmap it was compared with.
   */
  predicate AnswerFits(op: Operation, a: OpAnswer, receiver: BitmapData)
    reads AnswerFootprint(a)
  {
    match op
    case GetPixel(_, _) => a.Colour?
    case GetPixel32(_, _) => a.Colour?
    case HitTestBitmapData(_, _, _, _, _) => a.Hit?
    case HitTestPoint(_, _) => a.Hit?
    case HitTestRectangle(_, _, _) => a.Hit?
    case Threshold(_, _, _, _, _, _, _, _) => a.Count?
    case ColorBoundsRect(_, _, _) => a.Bounds?
    case Clone => a.Copy? && !a.copy.disposed && a.copy != receiver
    case Compare(other) =>
      a.Difference? && (a.diff.Some? ==> !a.diff.value.disposed && a.diff.value != receiver && a.diff.value != other)
    case _ => a.NoAnswer?
  }

  /**
   * The script value a native answer becomes. `compare` answers 0
   * (equivalent) when the operation finds no difference, and the difference
   * bitmap otherwise.
   */
  function AnswerValue(a: OpAnswer): (v: Value)
    ensures a.Difference? ==> (v == Number(0) <==> a.diff.None?)
    ensures a.Difference? && a.diff.Some? ==> v == Object(BitmapObject(a.diff.value))
  {
    match a
    case NoAnswer => Undefined
    case Colour(c) => Number(c)
    case Hit(h) => Bool(h)
    case Count(n) => Number(n)
    case Difference(None) => Number(0)
    case Difference(Some(d)) => Object(BitmapObject(d))
    case Copy(c) => Object(BitmapObject(c))
    case Bounds(x, y, w, h) => Object(RectangleObject(x, y, w, h))
  }
}
