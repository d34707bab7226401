/**
 * The decision logic of the AVM1 `BitmapData` script methods. Each method
 * is a function from its receiver and its (already coerced) arguments to a
 * `Plan`: either a value returned at once, or a native operation to let
 * reach the receiver together with how the call's value is then formed.
 */
module BitmapDataMethods {
  import opened Wrappers
  import opened BitmapDataObjects

  /** How a call that reaches a native operation forms its value. */
  datatype Reply =
    | Fixed(v: Value)   // a value that does not depend on the operation
    | Forwarded         // the value the operation answers

  datatype Plan =
    | Answer(v: Value)
    | Perform(op: Operation, reply: Reply)

  /** What every method answers for a receiver that is not a live BitmapData. */
  const NotABitmap: Value := Number(-1)

  /** The value a call following `p` returns once its operation has answered `a`. */
  function Outcome(p: Plan, a: OpAnswer): Value
  {
    match p
    case Answer(v) => v
    case Perform(_, Fixed(v)) => v
    case Perform(_, Forwarded) => AnswerValue(a)
  }

  /** A call following `p` returns `v` whatever its operation answers. */
  predicate Returns(p: Plan, v: Value)
  {
    (p.Answer? && p.v == v) || (p.Perform? && p.reply == Fixed(v))
  }

  /**
   * `new BitmapData(width, height, transparent, fillColor)`. The size
   * arguments are read as i32 and reinterpreted as u32, so a negative size
   * becomes a huge one; `isSizeValid` is the player-version dependent size
   * rule. The receiver's disposed flag is not consulted.
   */
  function ConstructorPlan(target: Obj, width: Option<i32>, height: Option<i32>, transparent: Option<bool>,
                           fillColor: Option<i32>, isSizeValid: (u32, u32) -> bool): (p: Plan)
    ensures var w, h := AsU32(width.UnwrapOr(0)), AsU32(height.UnwrapOr(0));
      && (p == Answer(Undefined) <==> !isSizeValid(w, h))
      && (p.Perform? <==> isSizeValid(w, h) && target.BitmapObject?)
      && (p.Perform? ==> p.op == InitPixels(w, h, transparent.UnwrapOr(true), fillColor.UnwrapOr(-1)))
      && (isSizeValid(w, h) ==> Returns(p, Object(target)))
  {
    var w, h := AsU32(width.UnwrapOr(0)), AsU32(height.UnwrapOr(0));
    if !isSizeValid(w, h) then
      Answer(Undefined)
    else if target.BitmapObject? then
      Perform(InitPixels(w, h, transparent.UnwrapOr(true), fillColor.UnwrapOr(-1)), Fixed(Object(target)))
    else
      Answer(Object(target))
  }

  /** The read-only properties of a bitmap. */
  datatype Property = Height | Width | Transparent | Rectangle

  /**
   * The `height`, `width`, `transparent` and `rectangle` getters: a live
   * bitmap reports its own state, anything else answers -1.
   */
  function PropertyPlan(target: Obj, property: Property): (p: Plan)
    reads Footprint(target)
    ensures p.Answer?
    ensures p == Answer(NotABitmap) <==> !IsLive(target)
    ensures IsLive(target) ==> match property
      case Height => p.v == Number(target.bmd.height)
      case Width => p.v == Number(target.bmd.width)
      case Transparent => p.v == Bool(target.bmd.transparent)
      case Rectangle => p.v == Object(RectangleObject(0, 0, target.bmd.width, target.bmd.height))
  {
    if !IsLive(target) then
      Answer(NotABitmap)
    else
      match property
      case Height => Answer(Number(target.bmd.height))
      case Width => Answer(Number(target.bmd.width))
      case Transparent => Answer(Bool(target.bmd.transparent))
      case Rectangle => Answer(Object(RectangleObject(0, 0, target.bmd.width, target.bmd.height)))
  }

  /** `getPixel(x, y)`, and `getPixel32(x, y)` when `withAlpha` holds. */
  function GetPixelPlan(target: Obj, x: Option<u32>, y: Option<u32>, withAlpha: bool): (p: Plan)
    reads Footprint(target)
    ensures p.Perform? <==> IsLive(target) && x.Some? && y.Some?
    ensures !p.Perform? ==> p == Answer(NotABitmap)
    ensures p.Perform? ==>
      p == Perform(if withAlpha then GetPixel32(x.value, y.value) else GetPixel(x.value, y.value), Forwarded)
  {
    if IsLive(target) && x.Some? && y.Some? then
      Perform(if withAlpha then GetPixel32(x.value, y.value) else GetPixel(x.value, y.value), Forwarded)
    else
      Answer(NotABitmap)
  }

  /** `setPixel(x, y, color)`: a live bitmap with a missing argument still answers -1. */
  function SetPixelPlan(target: Obj, x: Option<u32>, y: Option<u32>, color: Option<i32>): (p: Plan)
    reads Footprint(target)
    ensures p.Perform? <==> IsLive(target) && x.Some? && y.Some? && color.Some?
    ensures p.Perform? ==> p == Perform(SetPixel(x.value, y.value, color.value), Fixed(Undefined))
    ensures !p.Perform? ==> p == Answer(NotABitmap)
  {
    if IsLive(target) && x.Some? && y.Some? && color.Some? then
      Perform(SetPixel(x.value, y.value, color.value), Fixed(Undefined))
    else
      Answer(NotABitmap)
  }

  /** `setPixel32(x, y, color)`: a live bitmap answers undefined even when an argument is missing. */
  function SetPixel32Plan(target: Obj, x: Option<u32>, y: Option<u32>, color: Option<i32>): (p: Plan)
    reads Footprint(target)
    ensures p.Perform? <==> IsLive(target) && x.Some? && y.Some? && color.Some?
    ensures p.Perform? ==> p.op == SetPixel32(x.value, y.value, color.value)
    ensures IsLive(target) ==> Returns(p, Undefined)
    ensures !IsLive(target) ==> p == Answer(NotABitmap)
  {
    if !IsLive(target) then
      Answer(NotABitmap)
    else if x.Some? && y.Some? && color.Some? then
      Perform(SetPixel32(x.value, y.value, color.value), Fixed(Undefined))
    else
      Answer(Undefined)
  }

  /**
   * `copyChannel(sourceBitmap, sourceRect, destPoint, sourceChannel,
   * destChannel)`. The destination point is clamped to the receiver's
   * size; the source bitmap only has to be a BitmapData, disposed or not.
   */
  function CopyChannelPlan(target: Obj, source: Obj, sourceRect: U32Rect, destPoint: U32Point,
                           sourceChannel: i32, destChannel: i32): (p: Plan)
    reads Footprint(target)
    ensures !IsLive(target) ==> p == Answer(NotABitmap)
    ensures IsLive(target) ==> Returns(p, Undefined)
    ensures p.Perform? <==> IsLive(target) && source.BitmapObject?
    ensures p.Perform? ==> (p.op.CopyChannel? && p.op.source == source.bmd && p.op.channelRect == sourceRect
      && p.op.sourceChannel == sourceChannel && p.op.destChannel == destChannel)
    ensures p.Perform? ==> var d := p.op.clampedDest;
      && d.x <= target.bmd.width && d.y <= target.bmd.height
      && (destPoint.x <= target.bmd.width ==> d.x == destPoint.x)
      && (destPoint.y <= target.bmd.height ==> d.y == destPoint.y)
      && (destPoint.x > target.bmd.width ==> d.x == target.bmd.width)
      && (destPoint.y > target.bmd.height ==> d.y == target.bmd.height)
  {
    if !IsLive(target) then
      Answer(NotABitmap)
    else if source.BitmapObject? then
      var dest := U32Point(Min(destPoint.x, target.bmd.width), Min(destPoint.y, target.bmd.height));
      Perform(CopyChannel(dest, sourceRect, source.bmd, sourceChannel, destChannel), Fixed(Undefined))
    else
      Answer(Undefined)
  }

  /** `fillRect(rect, color)`: nothing is filled without a colour argument. */
  function FillRectPlan(target: Obj, rect: I32Rect, color: Option<i32>): (p: Plan)
    reads Footprint(target)
    ensures !IsLive(target) ==> p == Answer(NotABitmap)
    ensures IsLive(target) ==> Returns(p, Undefined)
    ensures p.Perform? <==> IsLive(target) && color.Some?
    ensures p.Perform? ==> p.op == FillRect(rect, color.value)
  {
    if !IsLive(target) then
      Answer(NotABitmap)
    else if color.Some? then
      Perform(FillRect(rect, color.value), Fixed(Undefined))
    else
      Answer(Undefined)
  }

  /** `clone()`: a live bitmap answers the copy the native operation makes. */
  function ClonePlan(target: Obj): (p: Plan)
    reads Footprint(target)
    ensures p.Perform? <==> IsLive(target)
    ensures p.Perform? ==> p == Perform(Clone, Forwarded)
    ensures !p.Perform? ==> p == Answer(NotABitmap)
  {
    if IsLive(target) then Perform(Clone, Forwarded) else Answer(NotABitmap)
  }

  /** `dispose()`: only a live bitmap is disposed; disposing again answers -1. */
  function DisposePlan(target: Obj): (p: Plan)
    reads Footprint(target)
    ensures p.Perform? <==> IsLive(target)
    ensures p.Perform? ==> p == Perform(Dispose, Fixed(Undefined))
    ensures !p.Perform? ==> p == Answer(NotABitmap)
  {
    if IsLive(target) then Perform(Dispose, Fixed(Undefined)) else Answer(NotABitmap)
  }

  /** `floodFill(x, y, color)`: nothing is filled unless all three arguments are given. */
  function FloodFillPlan(target: Obj, x: Option<u32>, y: Option<u32>, color: Option<i32>): (p: Plan)
    reads Footprint(target)
    ensures !IsLive(target) ==> p == Answer(NotABitmap)
    ensures IsLive(target) ==> Returns(p, Undefined)
    ensures p.Perform? <==> IsLive(target) && x.Some? && y.Some? && color.Some?
    ensures p.Perform? ==> p.op == FloodFill(x.value, y.value, color.value)
  {
    if !IsLive(target) then
      Answer(NotABitmap)
    else if x.Some? && y.Some? && color.Some? then
      Perform(FloodFill(x.value, y.value, color.value), Fixed(Undefined))
    else
      Answer(Undefined)
  }

  /**
   * `noise(randomSeed, low, high, channelOptions, grayScale)`. The bounds
   * are truncated to a byte (`low` defaults to 0, `high` to 255) and the
   * upper bound passed on is never below the lower one.
   */
  function NoisePlan(target: Obj, randomSeed: Option<i32>, low: Option<u32>, high: Option<u32>,
                     channelOptions: Option<u32>, grayScale: Option<bool>): (p: Plan)
    reads Footprint(target)
    ensures !IsLive(target) ==> p == Answer(NotABitmap)
    ensures IsLive(target) ==> Returns(p, Undefined)
    ensures p.Perform? <==> IsLive(target) && randomSeed.Some?
    ensures p.Perform? ==> var op := p.op;
      && op.Noise? && op.randomSeed == randomSeed.value
      && op.low == AsU8(low.UnwrapOr(0))
      && op.low <= op.high
      && (op.high == AsU8(high.UnwrapOr(0xFF)) || op.high == op.low)
      && (AsU8(high.UnwrapOr(0xFF)) >= op.low ==> op.high == AsU8(high.UnwrapOr(0xFF)))
      && op.channels == (if channelOptions.Some? then FromBits(AsU8(channelOptions.value)) else Rgb)
      && op.grayScale == grayScale.UnwrapOr(false)
  {
    var lo := AsU8(low.UnwrapOr(0));
    var hi := AsU8(high.UnwrapOr(0xFF));
    var channels := if channelOptions.Some? then FromBits(AsU8(channelOptions.value)) else Rgb;
    if !IsLive(target) then
      Answer(NotABitmap)
    else if randomSeed.Some? then
      Perform(Noise(randomSeed.value, lo, Max(hi, lo), channels, grayScale.UnwrapOr(false)), Fixed(Undefined))
    else
      Answer(Undefined)
  }

  /**
   * `colorTransform(rect, colorTransform)`. `transform` is None when fewer
   * than two arguments are given. The operation is handed the rectangle's
   * corners, the left and top edges raised to at least 0 and the right and
   * bottom ones reinterpreted as u32. A second argument that is not a
   * ColorTransform answers -3; every other outcome answers -1.
   */
  function ColorTransformPlan(target: Obj, rect: I32Rect, transform: Option<Obj>): (p: Plan)
    reads Footprint(target)
    ensures p == Answer(Number(-3)) <==> IsLive(target) && transform.Some? && !transform.value.ColorTransformObject?
    ensures p.Perform? <==> IsLive(target) && transform.Some? && transform.value.ColorTransformObject?
    ensures p != Answer(Number(-3)) ==> Returns(p, NotABitmap)
    ensures p.Perform? ==> var op := p.op;
      && op.ColorTransform? && op.transform == transform.value.transform
      && op.xMin == Max(rect.x, 0) && op.yMin == Max(rect.y, 0)
      && op.xMax == AsU32(rect.x + rect.width) && op.yMax == AsU32(rect.y + rect.height)
      && (0 <= rect.x + rect.width ==> op.xMax == rect.x + rect.width)
      && (0 <= rect.y + rect.height ==> op.yMax == rect.y + rect.height)
  {
    if IsLive(target) && transform.Some? then
      if transform.value.ColorTransformObject? then
        var op := ColorTransform(Max(rect.x, 0), Max(rect.y, 0), AsU32(rect.x + rect.width),
                                 AsU32(rect.y + rect.height), transform.value.transform);
        Perform(op, Fixed(NotABitmap))
      else
        Answer(Number(-3))
    else
      Answer(NotABitmap)
  }

  /**
   * `getColorBoundsRect(mask, color, findColor)`: answers the rectangle the
   * native operation finds; without a mask and a colour it answers -1.
   */
  function ColorBoundsRectPlan(target: Obj, mask: Option<i32>, color: Option<i32>, findColor: Option<bool>): (p: Plan)
    reads Footprint(target)
    ensures p.Perform? <==> IsLive(target) && mask.Some? && color.Some?
    ensures p.Perform? ==> p == Perform(ColorBoundsRect(findColor.UnwrapOr(true), mask.value, color.value), Forwarded)
    ensures !p.Perform? ==> p == Answer(NotABitmap)
  {
    if IsLive(target) && mask.Some? && color.Some? then
      Perform(ColorBoundsRect(findColor.UnwrapOr(true), mask.value, color.value), Forwarded)
    else
      Answer(NotABitmap)
  }

  /** `applyFilter(...)` is not implemented and answers -1 for every receiver. */
  function ApplyFilterPlan(target: Obj): (p: Plan)
    ensures p == Answer(NotABitmap)
  {
    Answer(NotABitmap)
  }

  /**
   * `generateFilterRect(...)` and `pixelDissolve(...)` are not implemented:
   * a live bitmap answers undefined and is left alone.
   */
  function UnimplementedPlan(target: Obj): (p: Plan)
    reads Footprint(target)
    ensures p.Answer?
    ensures p.v == (if IsLive(target) then Undefined else NotABitmap)
  {
    if IsLive(target) then Answer(Undefined) else Answer(NotABitmap)
  }

  /**
   * The numeric properties an argument object holds itself (not through
   * its prototype), each already coerced to i32; None where the object has
   * no such own property.
   */
  datatype StoredFields = StoredFields(x: Option<i32>, y: Option<i32>, width: Option<i32>, height: Option<i32>)

  /** The compare object is duck-typed as a point: own `x` and `y`, no `width` and no `height`. */
  predicate IsPointShape(f: StoredFields)
    ensures IsPointShape(f) ==> f.x.Some? && f.y.Some? && !(f.width.Some? && f.height.Some?)
  {
    f.x.Some? && f.y.Some? && f.width.None? && f.height.None?
  }

  /** The compare object is duck-typed as a rectangle: own `x`, `y`, `width` and `height`. */
  predicate IsRectangleShape(f: StoredFields)
    ensures IsRectangleShape(f) ==> !IsPointShape(f)
  {
    f.x.Some? && f.y.Some? && f.width.Some? && f.height.Some?
  }

  /**
   * `hitTest(firstPoint, firstAlphaThreshold, secondObject,
   * secondBitmapDataPoint, secondAlphaThreshold)`. A BitmapData compare
   * object is tested bitmap against bitmap; any other is tested as a point
   * or as a rectangle, shifted by `firstPoint` (with i32 wrap-around).
   * Errors are reported as negative numbers, in this order: -1 for the
   * receiver, -2 for the first point, -3 for the compare object and -4 for
   * the second point.
   */
  function HitTestPlan(target: Obj, firstPoint: StoredFields, sourceThreshold: u32,
                       compareObject: Obj, compareFields: StoredFields,
                       secondPoint: StoredFields, secondThreshold: u32): (p: Plan)
    reads Footprint(target), Footprint(compareObject)
    ensures p == Answer(Number(-1)) <==> !IsLive(target)
    ensures p == Answer(Number(-2)) <==> IsLive(target) && (firstPoint.x.None? || firstPoint.y.None?)
    ensures p == Answer(Number(-3)) <==>
      && IsLive(target) && firstPoint.x.Some? && firstPoint.y.Some?
      && (if compareObject.BitmapObject? then compareObject.bmd.disposed
          else !IsPointShape(compareFields) && !IsRectangleShape(compareFields))
    ensures p == Answer(Number(-4)) <==>
      && IsLive(target) && firstPoint.x.Some? && firstPoint.y.Some? && IsLive(compareObject)
      && (secondPoint.x.None? || secondPoint.y.None?)
    ensures p.Answer? ==> p.v in {Number(-1), Number(-2), Number(-3), Number(-4)}
    ensures p.Perform? ==> p.reply == Forwarded
    ensures p.Perform? && compareObject.BitmapObject? ==>
      p.op == HitTestBitmapData(I32Point(firstPoint.x.value, firstPoint.y.value), sourceThreshold,
                                compareObject.bmd, I32Point(secondPoint.x.value, secondPoint.y.value), secondThreshold)
    ensures p.Perform? && !compareObject.BitmapObject? ==>
      && (p.op.HitTestPoint? <==> IsPointShape(compareFields))
      && (p.op.HitTestRectangle? <==> IsRectangleShape(compareFields))
      && p.op.sourceThreshold == sourceThreshold
      // the object's position is recovered from the point passed on and `firstPoint`
      && WrapI32(p.op.point.x + firstPoint.x.value) == compareFields.x.value
      && WrapI32(p.op.point.y + firstPoint.y.value) == compareFields.y.value
      && (p.op.HitTestRectangle? ==> p.op.size == I32Point(compareFields.width.value, compareFields.height.value))
  {
    if !IsLive(target) then
      Answer(NotABitmap)
    else if firstPoint.x.None? || firstPoint.y.None? then
      Answer(Number(-2))
    else
      var topLeft := I32Point(firstPoint.x.value, firstPoint.y.value);
      if compareObject.BitmapObject? then
        if compareObject.bmd.disposed then
          Answer(Number(-3))
        else if secondPoint.x.None? || secondPoint.y.None? then
          Answer(Number(-4))
        else
          var second := I32Point(secondPoint.x.value, secondPoint.y.value);
          Perform(HitTestBitmapData(topLeft, sourceThreshold, compareObject.bmd, second, secondThreshold), Forwarded)
      else
        match compareFields
        case StoredFields(Some(testX), Some(testY), None, None) =>
          var offset := I32Point(WrapI32(testX - topLeft.x), WrapI32(testY - topLeft.y));
          OffsetRoundTrip(testX, topLeft.x);
          OffsetRoundTrip(testY, topLeft.y);
          Perform(HitTestPoint(sourceThreshold, offset), Forwarded)
        case StoredFields(Some(testX), Some(testY), Some(testWidth), Some(testHeight)) =>
          var offset := I32Point(WrapI32(testX - topLeft.x), WrapI32(testY - topLeft.y));
          OffsetRoundTrip(testX, topLeft.x);
          OffsetRoundTrip(testY, topLeft.y);
          Perform(HitTestRectangle(sourceThreshold, offset, I32Point(testWidth, testHeight)), Forwarded)
        case _ =>
          Answer(Number(-3))
  }

  /** Subtracting and adding back an i32 in wrap-around arithmetic is the identity. */
  lemma OffsetRoundTrip(a: i32, b: i32)
    ensures WrapI32(WrapI32(a - b) + b) == a
  {
    var d := WrapI32(a - b);
    assert (a - b - d) % 0x1_0000_0000 == 0;
    var k := (a - b - d) / 0x1_0000_0000;
    assert d + b == a - k * 0x1_0000_0000;
    WrapShift(a, k);
  }

  /** Wrapping ignores whole multiples of 2^32. */
  lemma WrapShift(a: i32, k: int)
    ensures WrapI32(a - k * 0x1_0000_0000) == a
  {
    assert (a - k * 0x1_0000_0000) % 0x1_0000_0000 == a % 0x1_0000_0000;
  }

  /**
   * `copyPixels(sourceBitmap, sourceRect, destPoint, alphaBitmap,
   * alphaPoint, mergeAlpha)`. `mergeAlpha` is None when fewer than six
   * arguments are given; it then defaults to true with an alpha bitmap and
   * to false without one. A disposed source or alpha bitmap copies nothing.
   */
  function CopyPixelsPlan(target: Obj, source: Obj, sourceRect: I32Rect, destPoint: I32Point,
                          alphaBitmap: Obj, alphaPoint: I32Point, mergeAlpha: Option<bool>): (p: Plan)
    reads Footprint(target), Footprint(source), Footprint(alphaBitmap)
    ensures !IsLive(target) ==> p == Answer(NotABitmap)
    ensures IsLive(target) ==> Returns(p, Undefined)
    ensures p.Perform? <==> IsLive(target) && IsLive(source) && (alphaBitmap.BitmapObject? ==> IsLive(alphaBitmap))
    ensures p.Perform? && alphaBitmap.BitmapObject? ==>
      p.op == CopyPixelsWithAlphaSource(source.bmd, sourceRect, destPoint, alphaBitmap.bmd, alphaPoint, mergeAlpha.UnwrapOr(true))
    ensures p.Perform? && !alphaBitmap.BitmapObject? ==>
      p.op == CopyPixels(source.bmd, sourceRect, destPoint, mergeAlpha.UnwrapOr(false))
  {
    if !IsLive(target) then
      Answer(NotABitmap)
    else if !IsLive(source) then
      Answer(Undefined)
    else if alphaBitmap.BitmapObject? then
      if alphaBitmap.bmd.disposed then
        Answer(Undefined)
      else
        var op := CopyPixelsWithAlphaSource(source.bmd, sourceRect, destPoint, alphaBitmap.bmd, alphaPoint,
                                            mergeAlpha.UnwrapOr(true));
        Perform(op, Fixed(Undefined))
    else
      Perform(CopyPixels(source.bmd, sourceRect, destPoint, mergeAlpha.UnwrapOr(false)), Fixed(Undefined))
  }

  /** `merge(sourceBitmap, sourceRect, destPoint, redMultiplier, ..., alphaMultiplier)`. */
  function MergePlan(target: Obj, source: Obj, sourceRect: I32Rect, destPoint: I32Point,
                     redMultiplier: i32, greenMultiplier: i32, blueMultiplier: i32, alphaMultiplier: i32): (p: Plan)
    reads Footprint(target), Footprint(source)
    ensures !IsLive(target) ==> p == Answer(NotABitmap)
    ensures IsLive(target) ==> Returns(p, Undefined)
    ensures p.Perform? <==> IsLive(target) && IsLive(source)
    ensures p.Perform? ==>
      p.op == Merge(source.bmd, sourceRect, destPoint, redMultiplier, greenMultiplier, blueMultiplier, alphaMultiplier)
  {
    if !IsLive(target) then
      Answer(NotABitmap)
    else if IsLive(source) then
      Perform(Merge(source.bmd, sourceRect, destPoint, redMultiplier, greenMultiplier, blueMultiplier, alphaMultiplier),
              Fixed(Undefined))
    else
      Answer(Undefined)
  }

  /** The colour channels of a 32-bit ARGB pixel. */
  datatype Channel = Red | Green | Blue | Alpha

  /**
   * The weight of a channel's lowest bit in a pixel value: `1 << shift`
   * with the shifts `paletteMap` uses (red 16, green 8, blue 0, alpha 24).
   */
  function Scale(c: Channel): nat
  {
    match c
    case Red => 0x1_0000
    case Green => 0x100
    case Blue => 0x1
    case Alpha => 0x100_0000
  }

  /** The 8-bit value of channel `c` in the pixel value `color`. */
  function ChannelValue(color: u32, c: Channel): (r: u8)
  {
    (color / Scale(c)) % 0x100
  }

  /**
   * Entry `i` of the table `paletteMap` builds for one channel. `arg` is
   * the elements of the channel's array argument, each already coerced to
   * u32, or None when that argument is not an object; an element past the
   * end reads as undefined, which coerces to 0. Without an array the entry
   * is `i` moved into the channel's position.
   */
  function ChannelEntry(arg: Option<seq<u32>>, c: Channel, i: nat): (r: u32)
    requires i < 0x100
    ensures arg.None? ==> ChannelValue(r, c) == i
  {
    if arg.Some? then
      if i < |arg.value| then arg.value[i] else 0
    else
      ChannelValueOfShifted(c, c, i);
      i * Scale(c)
  }

  /** The 256-entry lookup table `paletteMap` builds for channel `c`. */
  function ChannelTable(arg: Option<seq<u32>>, c: Channel): (t: seq<u32>)
    ensures |t| == 0x100
    ensures arg.Some? ==> forall i :: 0 <= i < 0x100 ==> t[i] == (if i < |arg.value| then arg.value[i] else 0)
  {
    seq(0x100, i requires 0 <= i < 0x100 => ChannelEntry(arg, c, i))
  }

  /**
   * The identity table copies a channel: entry `i` of the table built for
   * `c` without an array holds `i` in channel `c` and 0 in every other
   * channel.
   */
  lemma IdentityTableCopiesChannel(c: Channel, other: Channel, i: nat)
    requires i < 0x100
    ensures ChannelValue(ChannelTable(None, c)[i], other) == if other == c then i else 0
  {
    assert ChannelTable(None, c)[i] == i * Scale(c);
    ChannelValueOfShifted(c, other, i);
  }

  /** The byte `i` moved into channel `c` reads as `i` in `c` and as 0 elsewhere. */
  lemma ChannelValueOfShifted(c: Channel, other: Channel, i: nat)
    requires i < 0x100
    ensures ChannelValue(i * Scale(c), other) == if other == c then i else 0
  {
    var e := i * Scale(c);
    match (c, other)
    case (Red, Green) => assert e / 0x100 == i * 0x100;
    case (Alpha, Red) => assert e / 0x1_0000 == i * 0x100;
    case (Alpha, Green) => assert e / 0x100 == i * 0x1_0000;
    case (Alpha, Blue) => assert e % 0x100 == 0;
    case (Red, Blue) => assert e % 0x100 == 0;
    case (Green, Blue) => assert e % 0x100 == 0;
    case _ =>
  }

  /**
   * `paletteMap(sourceBitmap, sourceRect, destPoint, redArray, greenArray,
   * blueArray, alphaArray)`, given the four channel tables already built.
   */
  function PaletteMapPlan(target: Obj, source: Obj, sourceRect: I32Rect, destPoint: I32Point,
                          red: seq<u32>, green: seq<u32>, blue: seq<u32>, alpha: seq<u32>): (p: Plan)
    reads Footprint(target), Footprint(source)
    ensures !IsLive(target) ==> p == Answer(NotABitmap)
    ensures IsLive(target) ==> Returns(p, Undefined)
    ensures p.Perform? <==> IsLive(target) && IsLive(source)
    ensures p.Perform? ==> p.op == PaletteMap(source.bmd, sourceRect, destPoint, red, green, blue, alpha)
  {
    if !IsLive(target) then
      Answer(NotABitmap)
    else if IsLive(source) then
      Perform(PaletteMap(source.bmd, sourceRect, destPoint, red, green, blue, alpha), Fixed(Undefined))
    else
      Answer(Undefined)
  }

  /** `scroll(x, y)`. */
  function ScrollPlan(target: Obj, x: i32, y: i32): (p: Plan)
    reads Footprint(target)
    ensures p.Perform? <==> IsLive(target)
    ensures p.Perform? ==> p == Perform(Scroll(x, y), Fixed(Undefined))
    ensures !p.Perform? ==> p == Answer(NotABitmap)
  {
    if IsLive(target) then Perform(Scroll(x, y), Fixed(Undefined)) else Answer(NotABitmap)
  }

  /**
   * `threshold(sourceBitmap, sourceRect, destPoint, operation, threshold,
   * color, mask, copySource)`, answering how many pixels the operation
   * changed. `operation` is None when the operation string is not one of
   * the six comparisons; that answers 0 before the source is looked at.
   */
  function ThresholdPlan(target: Obj, source: Obj, sourceRect: I32Rect, destPoint: I32Point,
                         operation: Option<ThresholdOperation>, threshold: u32, colour: Option<i32>,
                         mask: Option<u32>, copySource: Option<bool>): (p: Plan)
    reads Footprint(target), Footprint(source)
    ensures !IsLive(target) ==> p == Answer(NotABitmap)
    ensures IsLive(target) && operation.None? ==> p == Answer(Number(0))
    ensures IsLive(target) && operation.Some? && !IsLive(source) ==> p == Answer(Undefined)
    ensures p.Perform? <==> IsLive(target) && operation.Some? && IsLive(source)
    ensures p.Perform? ==> p == Perform(Threshold(source.bmd, sourceRect, destPoint, operation.value, threshold,
                                                  colour.UnwrapOr(0), mask.UnwrapOr(0xFFFF_FFFF), copySource.UnwrapOr(false)),
                                        Forwarded)
  {
    if !IsLive(target) then
      Answer(NotABitmap)
    else if operation.None? then
      Answer(Number(0))
    else if IsLive(source) then
      var op := Threshold(source.bmd, sourceRect, destPoint, operation.value, threshold,
                          colour.UnwrapOr(0), mask.UnwrapOr(0xFFFF_FFFF), copySource.UnwrapOr(false));
      Perform(op, Forwarded)
    else
      Answer(Undefined)
  }

  /**
   * `compare(other)`. The codes are checked in this order: -1 when the
   * receiver is not a live bitmap, -2 when `other` is not, -3 when the
   * widths differ and -4 when the heights do; otherwise the native
   * comparison answers 0 or the difference bitmap.
   */
  function ComparePlan(target: Obj, other: Obj): (p: Plan)
    reads Footprint(target), Footprint(other)
    ensures p == Answer(Number(-1)) <==> !IsLive(target)
    ensures p == Answer(Number(-2)) <==> IsLive(target) && !IsLive(other)
    ensures p == Answer(Number(-3)) <==> IsLive(target) && IsLive(other) && target.bmd.width != other.bmd.width
    ensures p == Answer(Number(-4)) <==>
      IsLive(target) && IsLive(other) && target.bmd.width == other.bmd.width && target.bmd.height != other.bmd.height
    ensures p.Perform? <==>
      IsLive(target) && IsLive(other) && target.bmd.width == other.bmd.width && target.bmd.height == other.bmd.height
    ensures p.Perform? ==> p == Perform(Compare(other.bmd), Forwarded)
  {
    if !target.BitmapObject? || target.bmd.disposed then
      Answer(NotABitmap)
    else if !other.BitmapObject? || other.bmd.disposed then
      Answer(Number(-2))
    else if target.bmd.width != other.bmd.width then
      Answer(Number(-3))
    else if target.bmd.height != other.bmd.height then
      Answer(Number(-4))
    else
      Perform(Compare(other.bmd), Forwarded)
  }

  /** A live bitmap compared with another of the same size always reaches the native comparison, in either order. */
  lemma CompareSameSizeReachesComparison(a: BitmapData, b: BitmapData)
    requires !a.disposed && !b.disposed && a.width == b.width && a.height == b.height
    ensures ComparePlan(BitmapObject(a), BitmapObject(b)) == Perform(Compare(b), Forwarded)
    ensures ComparePlan(BitmapObject(b), BitmapObject(a)) == Perform(Compare(a), Forwarded)
  {
  }

  /** The size codes of `compare` do not depend on which bitmap is the receiver. */
  lemma CompareSizeCodesSymmetric(a: BitmapData, b: BitmapData)
    requires !a.disposed && !b.disposed
    ensures ComparePlan(BitmapObject(a), BitmapObject(b)).Answer? <==> ComparePlan(BitmapObject(b), BitmapObject(a)).Answer?
    ensures ComparePlan(BitmapObject(a), BitmapObject(b)).Answer? ==>
      ComparePlan(BitmapObject(a), BitmapObject(b)) == ComparePlan(BitmapObject(b), BitmapObject(a))
  {
  }
}
