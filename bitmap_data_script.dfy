/**
 * Script calls on an AVM1 BitmapData: which method is called with which
 * arguments, the plan each call follows, and the method that carries a
 * call out against the bitmap's state.
 */
module BitmapDataScript {
  import opened Wrappers
  import opened BitmapDataObjects
  import opened BitmapDataMethods

  /** A call of one of the BitmapData script methods, with its coerced arguments. */
  datatype Call =
    | CallConstructor(width: Option<i32>, height: Option<i32>, transparent: Option<bool>, fillColor: Option<i32>)
    | CallProperty(property: Property)
    | CallGetPixel(x: Option<u32>, y: Option<u32>, withAlpha: bool)
    | CallSetPixel(x: Option<u32>, y: Option<u32>, color: Option<i32>)
    | CallSetPixel32(x: Option<u32>, y: Option<u32>, color: Option<i32>)
    | CallCopyChannel(source: Obj, channelRect: U32Rect, channelDest: U32Point, sourceChannel: i32, destChannel: i32)
    | CallFillRect(rect: I32Rect, color: Option<i32>)
    | CallClone
    | CallDispose
    | CallFloodFill(x: Option<u32>, y: Option<u32>, color: Option<i32>)
    | CallNoise(randomSeed: Option<i32>, low: Option<u32>, high: Option<u32>, channelOptions: Option<u32>, grayScale: Option<bool>)
    | CallColorTransform(rect: I32Rect, transform: Option<Obj>)
    | CallGetColorBoundsRect(mask: Option<i32>, color: Option<i32>, findColor: Option<bool>)
    | CallApplyFilter
    | CallGenerateFilterRect
    | CallHitTest(firstPoint: StoredFields, sourceThreshold: u32, compareObject: Obj, compareFields: StoredFields,
                  secondPoint: StoredFields, secondThreshold: u32)
    | CallCopyPixels(source: Obj, sourceRect: I32Rect, destPoint: I32Point, alphaBitmap: Obj, alphaPoint: I32Point,
                     mergeAlpha: Option<bool>)
    | CallMerge(source: Obj, sourceRect: I32Rect, destPoint: I32Point,
                redMultiplier: i32, greenMultiplier: i32, blueMultiplier: i32, alphaMultiplier: i32)
    | CallPaletteMap(source: Obj, sourceRect: I32Rect, destPoint: I32Point,
                     red: Option<seq<u32>>, green: Option<seq<u32>>, blue: Option<seq<u32>>, alpha: Option<seq<u32>>)
    | CallPixelDissolve
    | CallScroll(dx: i32, dy: i32)
    | CallThreshold(source: Obj, sourceRect: I32Rect, destPoint: I32Point, operation: Option<ThresholdOperation>,
                    threshold: u32, colour: Option<i32>, thresholdMask: Option<u32>, copySource: Option<bool>)
    | CallCompare(other: Obj)

  /** The bitmaps among a call's arguments, whose state the call's plan may read. */
  function CallFootprint(call: Call): set<object>
  {
    match call
    case CallCopyChannel(source, _, _, _, _) => Footprint(source)
    case CallHitTest(_, _, compareObject, _, _, _) => Footprint(compareObject)
    case CallCopyPixels(source, _, _, alphaBitmap, _, _) => Footprint(source) + Footprint(alphaBitmap)
    case CallMerge(source, _, _, _, _, _, _) => Footprint(source)
    case CallPaletteMap(source, _, _, _, _, _, _) => Footprint(source)
    case CallThreshold(source, _, _, _, _, _, _, _) => Footprint(source)
    case CallCompare(other) => Footprint(other)
    case _ => {}
  }

  /**
   * The plan a call on `target` follows. Every method except the
   * constructor answers -1, and lets no operation reach anything, when the
   * receiver is not a live BitmapData.
   */
  function PlanFor(target: Obj, call: Call, isSizeValid: (u32, u32) -> bool): (p: Plan)
    reads Footprint(target), CallFootprint(call)
    ensures !call.CallConstructor? && !IsLive(target) ==> p == Answer(NotABitmap)
    ensures p.Perform? ==> target.BitmapObject?
    ensures p.Perform? && !call.CallConstructor? ==> IsLive(target)
  {
    match call
    case CallConstructor(width, height, transparent, fillColor) =>
      ConstructorPlan(target, width, height, transparent, fillColor, isSizeValid)
    case CallProperty(property) => PropertyPlan(target, property)
    case CallGetPixel(x, y, withAlpha) => GetPixelPlan(target, x, y, withAlpha)
    case CallSetPixel(x, y, color) => SetPixelPlan(target, x, y, color)
    case CallSetPixel32(x, y, color) => SetPixel32Plan(target, x, y, color)
    case CallCopyChannel(source, rect, dest, sourceChannel, destChannel) =>
      CopyChannelPlan(target, source, rect, dest, sourceChannel, destChannel)
    case CallFillRect(rect, color) => FillRectPlan(target, rect, color)
    case CallClone => ClonePlan(target)
    case CallDispose => DisposePlan(target)
    case CallFloodFill(x, y, color) => FloodFillPlan(target, x, y, color)
    case CallNoise(randomSeed, low, high, channelOptions, grayScale) =>
      NoisePlan(target, randomSeed, low, high, channelOptions, grayScale)
    case CallColorTransform(rect, transform) => ColorTransformPlan(target, rect, transform)
    case CallGetColorBoundsRect(mask, color, findColor) => ColorBoundsRectPlan(target, mask, color, findColor)
    case CallApplyFilter => ApplyFilterPlan(target)
    case CallGenerateFilterRect => UnimplementedPlan(target)
    case CallHitTest(firstPoint, sourceThreshold, compareObject, compareFields, secondPoint, secondThreshold) =>
      HitTestPlan(target, firstPoint, sourceThreshold, compareObject, compareFields, secondPoint, secondThreshold)
    case CallCopyPixels(source, rect, dest, alphaBitmap, alphaPoint, mergeAlpha) =>
      CopyPixelsPlan(target, source, rect, dest, alphaBitmap, alphaPoint, mergeAlpha)
    case CallMerge(source, rect, dest, redMultiplier, greenMultiplier, blueMultiplier, alphaMultiplier) =>
      MergePlan(target, source, rect, dest, redMultiplier, greenMultiplier, blueMultiplier, alphaMultiplier)
    case CallPaletteMap(source, rect, dest, red, green, blue, alpha) =>
      PaletteMapPlan(target, source, rect, dest, ChannelTable(red, Red), ChannelTable(green, Green),
                     ChannelTable(blue, Blue), ChannelTable(alpha, Alpha))
    case CallPixelDissolve => UnimplementedPlan(target)
    case CallScroll(dx, dy) => ScrollPlan(target, dx, dy)
    case CallThreshold(source, rect, dest, operation, threshold, colour, mask, copySource) =>
      ThresholdPlan(target, source, rect, dest, operation, threshold, colour, mask, copySource)
    case CallCompare(other) => ComparePlan(target, other)
  }

  /**
   * Build the lookup table of one `paletteMap` channel in a fresh 256-entry
   * array, entry by entry.
   */
  method GetChannel(arg: Option<seq<u32>>, c: Channel) returns (table: array<u32>)
    ensures table[..] == ChannelTable(arg, c)
  {
    table := new u32[0x100];
    for i := 0 to 0x100
      invariant forall j :: 0 <= j < i ==> table[j] == ChannelEntry(arg, c, j)
    {
      if arg.Some? {
        table[i] := if i < |arg.value| then arg.value[i] else 0;
      } else {
        table[i] := i * Scale(c);
      }
    }
  }

  /** `a` is what the operation of plan `p` on `target` can answer, if the plan has one. */
  predicate AnswerFitsPlan(p: Plan, target: Obj, a: OpAnswer)
    reads AnswerFootprint(a)
  {
    p.Perform? && target.BitmapObject? ==> AnswerFits(p.op, a, target.bmd)
  }

  /**
   * Carry out `call` on `target`: the plan's operation, if any, reaches the
   * receiver and nothing else changes. `answer` is what the native
   * operation reports, and `isSizeValid` the player's size rule.
   */
  method Invoke(target: Obj, call: Call, isSizeValid: (u32, u32) -> bool, answer: OpAnswer) returns (v: Value)
    requires AnswerFitsPlan(PlanFor(target, call, isSizeValid), target, answer)
    modifies Footprint(target)
    ensures v == Outcome(old(PlanFor(target, call, isSizeValid)), answer)
    ensures old(PlanFor(target, call, isSizeValid)).Perform? ==>
      Applied(target.bmd, old(PlanFor(target, call, isSizeValid)).op)
    ensures old(PlanFor(target, call, isSizeValid)).Answer? ==> unchanged(Footprint(target))
  {
    var p: Plan;
    if call.CallPaletteMap? {
      var red := GetChannel(call.red, Red);
      var green := GetChannel(call.green, Green);
      var blue := GetChannel(call.blue, Blue);
      var alpha := GetChannel(call.alpha, Alpha);
      p := PaletteMapPlan(target, call.source, call.sourceRect, call.destPoint, red[..], green[..], blue[..], alpha[..]);
    } else {
      p := PlanFor(target, call, isSizeValid);
    }
    assert p == PlanFor(target, call, isSizeValid);
    if p.Perform? {
      target.bmd.Apply(p.op);
    }
    v := Outcome(p, answer);
  }

  /**
   * `compare(other)` answers one of the codes -1 to -4, 0 for no
   * difference, or a new live difference bitmap; between two live bitmaps
   * it never answers -1 or -2.
   */
  lemma CompareAnswers(target: Obj, other: Obj, isSizeValid: (u32, u32) -> bool, answer: OpAnswer)
    requires AnswerFitsPlan(PlanFor(target, CallCompare(other), isSizeValid), target, answer)
    ensures var v := Outcome(PlanFor(target, CallCompare(other), isSizeValid), answer);
      || v in {Number(0), Number(-1), Number(-2), Number(-3), Number(-4)}
      || (&& IsLive(target) && IsLive(other) && v.Object? && IsLive(v.obj)
          && v.obj.bmd != target.bmd && v.obj.bmd != other.bmd)
    ensures IsLive(target) && IsLive(other) ==>
      Outcome(PlanFor(target, CallCompare(other), isSizeValid), answer) !in {Number(-1), Number(-2)}
  {
    var p := PlanFor(target, CallCompare(other), isSizeValid);
    if p.Perform? {
      assert p == Perform(Compare(other.bmd), Forwarded);
      assert AnswerFits(Compare(other.bmd), answer, target.bmd);
    }
  }

  /**
   * `clone()` on a live bitmap answers a live bitmap other than the
   * receiver; on anything else it answers -1.
   */
  lemma CloneAnswers(target: Obj, isSizeValid: (u32, u32) -> bool, answer: OpAnswer)
    requires AnswerFitsPlan(PlanFor(target, CallClone, isSizeValid), target, answer)
    ensures var v := Outcome(PlanFor(target, CallClone, isSizeValid), answer);
      && (IsLive(target) ==> v.Object? && IsLive(v.obj) && v.obj.bmd != target.bmd)
      && (!IsLive(target) ==> v == NotABitmap)
  {
    var p := PlanFor(target, CallClone, isSizeValid);
    if p.Perform? {
      assert AnswerFits(Clone, answer, target.bmd);
    }
  }

  /**
   * `getPixel`/`getPixel32` answer the colour read, or -1 when the read is
   * not made.
   */
  lemma GetPixelAnswers(target: Obj, x: Option<u32>, y: Option<u32>, withAlpha: bool,
                        isSizeValid: (u32, u32) -> bool, answer: OpAnswer)
    requires AnswerFitsPlan(PlanFor(target, CallGetPixel(x, y, withAlpha), isSizeValid), target, answer)
    ensures var v := Outcome(PlanFor(target, CallGetPixel(x, y, withAlpha), isSizeValid), answer);
      && v.Number? && -0x8000_0000 <= v.n < 0x8000_0000
      && (!IsLive(target) || x.None? || y.None? ==> v == NotABitmap)
  {
  }

  /** `hitTest` answers a hit flag once the test is made, and an error code from -1 to -4 otherwise. */
  lemma HitTestAnswers(target: Obj, firstPoint: StoredFields, sourceThreshold: u32, compareObject: Obj,
                       compareFields: StoredFields, secondPoint: StoredFields, secondThreshold: u32,
                       isSizeValid: (u32, u32) -> bool, answer: OpAnswer)
    requires var call := CallHitTest(firstPoint, sourceThreshold, compareObject, compareFields, secondPoint, secondThreshold);
      AnswerFitsPlan(PlanFor(target, call, isSizeValid), target, answer)
    ensures var call := CallHitTest(firstPoint, sourceThreshold, compareObject, compareFields, secondPoint, secondThreshold);
      var v := Outcome(PlanFor(target, call, isSizeValid), answer);
      v.Bool? || v in {Number(-1), Number(-2), Number(-3), Number(-4)}
  {
  }

  /**
   * A clone outlives its original: cloning a live bitmap and then
   * disposing the original leaves the clone live.
   */
  method CloneThenDispose(b: BitmapData, copy: BitmapData, isSizeValid: (u32, u32) -> bool)
    returns (cloned: Value, disposed: Value)
    requires !b.disposed && !copy.disposed && copy != b
    modifies b
    ensures cloned == Object(BitmapObject(copy)) && disposed == Undefined
    ensures b.disposed && !copy.disposed
    ensures b.applied == old(b.applied) + [Clone, Dispose]
  {
    var target := BitmapObject(b);
    cloned := Invoke(target, CallClone, isSizeValid, Copy(copy));
    disposed := Invoke(target, CallDispose, isSizeValid, NoAnswer);
  }

  /**
   * A live bitmap disposed twice: the first `dispose` answers undefined,
   * the second -1, and afterwards `width` and `height` answer -1.
   */
  method DisposeTwice(b: BitmapData, isSizeValid: (u32, u32) -> bool)
    returns (first: Value, second: Value, width: Value, height: Value)
    requires !b.disposed
    modifies b
    ensures first == Undefined && second == NotABitmap
    ensures width == NotABitmap && height == NotABitmap
    ensures b.disposed && b.applied == old(b.applied) + [Dispose]
  {
    var target := BitmapObject(b);
    first := Invoke(target, CallDispose, isSizeValid, NoAnswer);
    second := Invoke(target, CallDispose, isSizeValid, NoAnswer);
    width := Invoke(target, CallProperty(Width), isSizeValid, NoAnswer);
    height := Invoke(target, CallProperty(Height), isSizeValid, NoAnswer);
  }

  /**
   * `new BitmapData(width, height)` on a fresh object of a valid size: the
   * constructor answers the object itself, which then reports the size
   * reinterpreted as u32 and is transparent by default.
   */
  method ConstructAndMeasure(width: i32, height: i32, isSizeValid: (u32, u32) -> bool)
    returns (b: BitmapData, constructed: Value, reportedWidth: Value, reportedHeight: Value, transparent: Value)
    requires isSizeValid(AsU32(width), AsU32(height))
    ensures constructed == Object(BitmapObject(b))
    ensures reportedWidth == Number(AsU32(width)) && reportedHeight == Number(AsU32(height))
    ensures transparent == Bool(true)
  {
    b := new BitmapData(0, 0, true);
    var target := BitmapObject(b);
    constructed := Invoke(target, CallConstructor(Some(width), Some(height), None, None), isSizeValid, NoAnswer);
    reportedWidth := Invoke(target, CallProperty(Width), isSizeValid, NoAnswer);
    reportedHeight := Invoke(target, CallProperty(Height), isSizeValid, NoAnswer);
    transparent := Invoke(target, CallProperty(Transparent), isSizeValid, NoAnswer);
  }
}
