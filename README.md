# Application domains and the AVM1 BitmapData protocol, in Dafny

This project models two parts of a Flash player's script runtime and proves
properties of them.

**AVM2 application domains** (`avm2_domain.dfy`, module `Avm2Domain`).
A `Domain` is a class. Each domain holds:

- the definitions exported by scripts (`defs`, qualified name to script);
- the classes defined in it (`classes`);
- a parent fixed at creation (`parent`);
- an optional domain-memory byte array.

Two ghost constants, `ancestors` and `depth`, make the parent chain finite,
so recursion up the chain terminates.

- Lookups walk the chain nearest first: `HasDefinition`, `GetDefiningScript`,
  `GetClass` and `FindDefiningScript`.
- `ExportDefinition` keeps the first definition anywhere in the chain.
- `ExportClass` overwrites the local entry.
- Domain memory is get-or-insert in `InitDefaultDomainMemory` and is
  overwritten by `SetDomainMemory`.
- `SplitVectorName` is the rewrite of a `Vector.<T>` name into the name
  `Vector` plus the type name `T`.
- Domain equality is object identity, which is Dafny's `==` on references.

**AVM1 `flash.display.BitmapData` script methods** (three files).

`bitmap_data_objects.dfy` (module `BitmapDataObjects`) defines:

- the 8- and 32-bit integer types and the casts between them;
- the `BitmapData` class (size, transparency, disposed flag, and the trace
  `applied` of native operations that reached it);
- the script values and objects the methods see;
- the native operations, as a datatype.

`bitmap_data_methods.dfy` (module `BitmapDataMethods`) has one function per
script method. Each function maps the receiver and the already-coerced
arguments to a `Plan`. A plan is either a value answered at once, or a native
operation that reaches the receiver, together with the value the call then
returns. These functions contain the guards and the error-code ladders:

- every method answers -1 for a receiver that is not a live bitmap;
- `compare` answers -1, -2, -3, -4 in that order;
- `hitTest` answers -1, -2, -3, -4;
- argument defaulting and clamping.

They also build the `paletteMap` channel tables.

`bitmap_data_script.dfy` (module `BitmapDataScript`) has three parts:

- the method table (`PlanFor`);
- the in-place `get_channel` loop (`GetChannel`);
- the method `Invoke`, which carries a call out against the bitmap's state.
  Only when the plan names an operation does that operation reach the
  receiver. Otherwise nothing changes.

The pixel algorithms are native code and outside this model. What a native
operation answers (a colour, a hit, a count, a difference bitmap) is a
parameter of `Invoke`, whose kind `AnswerFits` ties to the operation.

## Model

| member | source | states |
|---|---|---|
| `Avm2Domain.QNameMultiname` | core/src/avm2/domain.rs:178 | The multiname made from a qualified name matches that name and no other. |
| `Avm2Domain.LookupUnder` | core/src/avm2/domain.rs:119-121 | A found entry is stored under the local name in one of the given namespaces, with the stored value; nothing is found exactly when no given namespace holds the local name. |
| `Avm2Domain.LookupMultiname` | core/src/avm2/domain.rs:119-124 | A found entry is in the map, has the stored value and its name matches the multiname; nothing is found exactly when no key matches, which is always the case without a local name. |
| `Avm2Domain.IsVectorName` | core/src/avm2/domain.rs:194-198 | The rewrite condition: one of the three namespaces, the `Vector.<` prefix and the `>` suffix. A name that meets it is longer than the prefix, so the type name between prefix and suffix is well defined. |
| `Avm2Domain.SplitVectorName` | core/src/avm2/domain.rs:193-206 | The rewrite applies exactly when the namespace is one of the three vector/public namespaces and the local name starts with `Vector.<` and ends with `>`; it then looks up `Vector` in the public vector namespace and the type name is exactly what lies between the prefix and the final `>`; otherwise the name is unchanged. |
| `Avm2Domain.VectorNameRoundTrip` | core/src/avm2/domain.rs:200-205 | Splitting `Vector.<T>` in any of the three namespaces gives back exactly `T` and the name `Vector`. |
| `Avm2Domain.ByteArray.SetLength` | core/src/avm2/domain.rs:273 | The array then has exactly the given length. |
| `Avm2Domain.UndefinedVariableMessage` | core/src/avm2/domain.rs:161-165 | The message is `Error #1065: Variable `, then the name, then ` is not defined.`, so the name can be read back from it. |
| `Avm2Domain.Domain.Global` | core/src/avm2/domain.rs:53-63 | The global domain has empty definition and class maps, no parent and no domain memory. |
| `Avm2Domain.Domain.Movie` | core/src/avm2/domain.rs:73-87 | A movie domain has empty maps, the given parent, and a freshly allocated 1024-byte domain memory. |
| `Avm2Domain.Domain.ParentDomain` | core/src/avm2/domain.rs:90-92 | The parent is absent exactly for a domain at the root of its chain, and otherwise is the next domain of the chain, whose own chain is the rest. |
| `Avm2Domain.Domain.HasDefinition` | core/src/avm2/domain.rs:95-107 | True exactly when this domain or one of its ancestors has the name among its definitions. |
| `Avm2Domain.Domain.GetDefiningScript` | core/src/avm2/domain.rs:113-131 | Nothing is found exactly when no domain of the chain resolves the multiname; what is found is the entry of some domain of the chain. |
| `Avm2Domain.Domain.DefiningScriptIsNearest` | core/src/avm2/domain.rs:119-128 | Local definitions shadow the parent's: the answer is the entry of the nearest domain of the chain that resolves the multiname. |
| `Avm2Domain.Domain.HasDefinitionIffResolves` | core/src/avm2/domain.rs:95-131 | A qualified name is defined somewhere in the chain exactly when it resolves, and it then resolves to itself. |
| `Avm2Domain.Domain.NoLocalNameResolvesNothing` | core/src/avm2/domain.rs:119 | A multiname without a local name resolves to no script and no class anywhere in the chain. |
| `Avm2Domain.Domain.GetClass` | core/src/avm2/domain.rs:133-147 | Nothing is found exactly when no domain of the chain has the class; what is found is a class of some domain of the chain. |
| `Avm2Domain.Domain.ClassIsNearest` | core/src/avm2/domain.rs:137-143 | Local classes shadow the parent's: the answer is the class of the nearest domain of the chain that has one under the multiname. |
| `Avm2Domain.Domain.FindDefiningScript` | core/src/avm2/domain.rs:152-170 | Succeeds exactly when `GetDefiningScript` finds something, with that result; otherwise a ReferenceError 1065 naming the local name, or, for a multiname without a local name, a plain error. |
| `Avm2Domain.Domain.ExportDefinition` | core/src/avm2/domain.rs:222-236 | A no-op when the name is defined anywhere in the chain; otherwise inserts into this domain's definitions only. Classes, memory and every ancestor's maps are unchanged; the name is defined afterwards and resolves to the new script when it was not defined before. |
| `Avm2Domain.Domain.ExportClass` | core/src/avm2/domain.rs:238-240 | Inserts or replaces the local class under the class's own name; definitions, memory and ancestors are unchanged; the class is then what the name resolves to. |
| `Avm2Domain.Domain.DomainMemory` | core/src/avm2/domain.rs:242-247 | Requires memory to be present and answers it. |
| `Avm2Domain.Domain.SetDomainMemory` | core/src/avm2/domain.rs:249-255 | Replaces the memory unconditionally; the maps are unchanged. |
| `Avm2Domain.Domain.InitDefaultDomainMemory` | core/src/avm2/domain.rs:263-281 | Existing memory is never replaced; absent memory becomes a fresh 1024-byte array; the maps are unchanged. |
| `Avm2Domain.ExportTwice` | core/src/avm2/domain.rs:222-236 | Exporting a name twice is exporting it once: the second export changes nothing, and the first script wins when the name was undefined. |
| `Avm2Domain.InitTwice` | core/src/avm2/domain.rs:263-281 | Installing the default memory twice keeps the memory the first call left: the existing one, or one fresh 1024-byte array. |
| `BitmapDataObjects.AsU32` | core/src/avm1/globals/bitmap_data.rs:60-62 | `as u32`: congruent to its argument modulo 2^32, and the identity on values already in range. |
| `BitmapDataObjects.AsU8` | core/src/avm1/globals/bitmap_data.rs:438-443 | `as u8`: congruent to its argument modulo 256, and the identity on values already in range. |
| `BitmapDataObjects.WrapI32` | core/src/avm1/globals/bitmap_data.rs:823-826 | An i32 subtraction wrapped to 32 bits: congruent to the exact result modulo 2^32, and equal to it when it fits. |
| `BitmapDataObjects.IsLive` | core/src/avm1/globals/bitmap_data.rs:94-95 | A live object is a BitmapData object, whose heap is its bitmap; a disposed bitmap is never live. |
| `BitmapDataObjects.BitmapData.Apply` | core/src/avm1/globals/bitmap_data.rs:79-84 | An operation reaching a bitmap is appended to its trace. `init_pixels` sets the size and transparency, `dispose` sets the disposed flag, and nothing else changes. |
| `BitmapDataObjects.AnswerValue` | core/src/avm1/globals/bitmap_data.rs:1311-1320 | A comparison answers 0 (equivalent) exactly when the operation reports no difference, and the difference bitmap otherwise. |
| `BitmapDataMethods.ConstructorPlan` | core/src/avm1/globals/bitmap_data.rs:55-87 | The size arguments default to 0 and are reinterpreted as u32. An invalid size answers undefined and initialises nothing. A valid size initialises the pixels of a BitmapData receiver (transparent by default, fill colour -1 by default) and answers the receiver. |
| `BitmapDataMethods.PropertyPlan` | core/src/avm1/globals/bitmap_data.rs:89-153 | `height`, `width`, `transparent` and `rectangle` answer -1 exactly when the receiver is not a live bitmap; otherwise its height, width, transparency, or the rectangle (0, 0, width, height). |
| `BitmapDataMethods.GetPixelPlan` | core/src/avm1/globals/bitmap_data.rs:155-191 | The pixel is read exactly when the receiver is live and both coordinates are given; otherwise the answer is -1. |
| `BitmapDataMethods.SetPixelPlan` | core/src/avm1/globals/bitmap_data.rs:193-221 | Writes exactly when the receiver is live and all three arguments are given, answering undefined; every other case answers -1. |
| `BitmapDataMethods.SetPixel32Plan` | core/src/avm1/globals/bitmap_data.rs:223-251 | Writes exactly when the receiver is live and all three arguments are given; a live receiver answers undefined even with missing arguments. |
| `BitmapDataMethods.CopyChannelPlan` | core/src/avm1/globals/bitmap_data.rs:253-325 | A live receiver answers undefined and copies exactly when the source is a BitmapData (even a disposed one). The destination point is clamped to at most the receiver's width and height, and is unchanged when already inside. |
| `BitmapDataMethods.FillRectPlan` | core/src/avm1/globals/bitmap_data.rs:327-366 | A live receiver answers undefined and fills exactly when a colour is given. |
| `BitmapDataMethods.ClonePlan` | core/src/avm1/globals/bitmap_data.rs:368-387 | A live receiver answers the copy; anything else answers -1. |
| `BitmapDataMethods.DisposePlan` | core/src/avm1/globals/bitmap_data.rs:389-402 | Exactly a live receiver is disposed, answering undefined; a disposed receiver or a non-bitmap answers -1. |
| `BitmapDataMethods.FloodFillPlan` | core/src/avm1/globals/bitmap_data.rs:404-431 | A live receiver answers undefined and fills exactly when x, y and the colour are given. |
| `BitmapDataMethods.NoisePlan` | core/src/avm1/globals/bitmap_data.rs:433-476 | A live receiver answers undefined and makes noise exactly when a seed is given. The bounds are truncated to bytes (defaults 0 and 255), and the upper bound passed on is the larger of the two, so never below the lower one. Channels default to RGB. |
| `BitmapDataMethods.ColorTransformPlan` | core/src/avm1/globals/bitmap_data.rs:592-635 | -3, leaving the bitmap alone, exactly when a live receiver's second argument is not a ColorTransform. The transform is applied exactly when it is one, with x_min = max(x, 0), y_min = max(y, 0), x_max = x + width and y_max = y + height (as u32). Every other outcome answers -1. |
| `BitmapDataMethods.ColorBoundsRectPlan` | core/src/avm1/globals/bitmap_data.rs:637-669 | The bounds are searched exactly when the receiver is live and mask and colour are given, with `findColor` defaulting to true; otherwise -1. |
| `BitmapDataMethods.ApplyFilterPlan` | core/src/avm1/globals/bitmap_data.rs:568-575 | Answers -1 for every receiver. |
| `BitmapDataMethods.UnimplementedPlan` | core/src/avm1/globals/bitmap_data.rs:577-590 | `generateFilterRect` and `pixelDissolve` answer undefined for a live receiver and -1 otherwise, and change nothing. |
| `BitmapDataMethods.HitTestPlan` | core/src/avm1/globals/bitmap_data.rs:747-863 | Each of the codes -1, -2, -3, -4 holds exactly under its condition, in ladder order. A BitmapData compare object is tested bitmap against bitmap. An own-`x`/`y` object is tested as a point, and an own-`x`/`y`/`width`/`height` object as a rectangle. In both cases the offset from the first point is passed on. |
| `BitmapDataMethods.IsPointShape` | core/src/avm1/globals/bitmap_data.rs:822 | A point has own `x` and `y` and lacks at least one of `width` and `height`. |
| `BitmapDataMethods.IsRectangleShape` | core/src/avm1/globals/bitmap_data.rs:835 | A rectangle (own `x`, `y`, `width`, `height`) is never also a point, so the order of the two match arms does not matter. |
| `BitmapDataMethods.OffsetRoundTrip` | core/src/avm1/globals/bitmap_data.rs:822-839 | Adding the first point back to the wrapped offset recovers the compare object's coordinate. |
| `BitmapDataMethods.CopyPixelsPlan` | core/src/avm1/globals/bitmap_data.rs:865-968 | A live receiver answers undefined. Pixels are copied exactly when the source is live and any alpha bitmap is live. `mergeAlpha` defaults to true with an alpha bitmap and to false without one. |
| `BitmapDataMethods.MergePlan` | core/src/avm1/globals/bitmap_data.rs:970-1046 | A live receiver answers undefined and merges exactly when the source is live, passing the four multipliers on. |
| `BitmapDataMethods.ChannelEntry` | core/src/avm1/globals/bitmap_data.rs:1090-1097 | Without an array argument, the entry holds its own index in the table's channel. |
| `BitmapDataMethods.ChannelTable` | core/src/avm1/globals/bitmap_data.rs:1086-1100 | 256 entries. With an array argument, entry i is the array's element i, or 0 past its end. |
| `BitmapDataMethods.IdentityTableCopiesChannel` | core/src/avm1/globals/bitmap_data.rs:1089-1097 | Without an array, entry i holds i in the table's own channel (red 16, green 8, blue 0, alpha 24 bits up) and 0 in every other channel. |
| `BitmapDataMethods.PaletteMapPlan` | core/src/avm1/globals/bitmap_data.rs:1048-1125 | A live receiver answers undefined and maps exactly when the source is live, with the four tables passed on. |
| `BitmapDataMethods.ScrollPlan` | core/src/avm1/globals/bitmap_data.rs:1142-1170 | Exactly a live receiver scrolls, answering undefined; otherwise -1. |
| `BitmapDataMethods.ThresholdPlan` | core/src/avm1/globals/bitmap_data.rs:1172-1261 | An unrecognised operation answers 0 before the source is looked at. A disposed or missing source answers undefined. Otherwise it answers the operation's count, with colour 0, mask 0xFFFFFFFF and copySource false by default. |
| `BitmapDataMethods.ComparePlan` | core/src/avm1/globals/bitmap_data.rs:1263-1321 | -1 exactly when the receiver is not live; -2 exactly when it is but the argument is not; -3 exactly when both are live with different widths; -4 exactly for equal widths and different heights. Otherwise the comparison is made and its answer returned. |
| `BitmapDataMethods.CompareSameSizeReachesComparison` | core/src/avm1/globals/bitmap_data.rs:1300-1314 | Two live bitmaps of the same size reach the comparison in either order. |
| `BitmapDataMethods.CompareSizeCodesSymmetric` | core/src/avm1/globals/bitmap_data.rs:1304-1310 | For two live bitmaps the error codes do not depend on which is the receiver. |
| `BitmapDataScript.PlanFor` | core/src/avm1/globals/bitmap_data.rs:20-49 | Every method but the constructor answers -1, and reaches no operation, for a receiver that is not a live bitmap. Only a BitmapData receiver is ever reached. |
| `BitmapDataScript.GetChannel` | core/src/avm1/globals/bitmap_data.rs:1086-1100 | The array the loop fills is exactly `ChannelTable` of the argument. |
| `BitmapDataScript.Invoke` | core/src/avm1/globals/bitmap_data.rs:20-49 | Requires the native answer to be of the kind the plan's operation reports (`AnswerFits`). The call answers its plan's outcome. The plan's operation, when there is one, reaches the receiver and changes it as `Apply` says; otherwise the receiver is unchanged. |
| `BitmapDataScript.CompareAnswers` | core/src/avm1/globals/bitmap_data.rs:1263-1321 | `compare` answers a code from -1 to -4, 0 for no difference, or a live difference bitmap other than both operands; between two live bitmaps never -1 or -2. |
| `BitmapDataScript.CloneAnswers` | core/src/avm1/globals/bitmap_data.rs:368-387 | `clone` on a live bitmap answers a live bitmap other than the receiver, and -1 on anything else. |
| `BitmapDataScript.GetPixelAnswers` | core/src/avm1/globals/bitmap_data.rs:155-191 | `getPixel` and `getPixel32` always answer an i32 number: the colour read, or -1 when the receiver is not live or a coordinate is missing. |
| `BitmapDataScript.HitTestAnswers` | core/src/avm1/globals/bitmap_data.rs:747-863 | `hitTest` answers a boolean once the test is made, and otherwise one of the codes -1 to -4. |
| `BitmapDataScript.CloneThenDispose` | core/src/avm1/globals/bitmap_data.rs:368-402 | Cloning a live bitmap and then disposing it answers the clone and undefined; the clone stays live while the original is disposed, and the trace gains exactly the clone and the dispose. |
| `BitmapDataScript.DisposeTwice` | core/src/avm1/globals/bitmap_data.rs:389-402 | Disposing a live bitmap answers undefined; disposing it again answers -1; afterwards `width` and `height` answer -1. Only one dispose reaches the bitmap. |
| `BitmapDataScript.ConstructAndMeasure` | core/src/avm1/globals/bitmap_data.rs:55-115 | Constructing with a valid size answers the object. It then reports the size arguments reinterpreted as u32 and is transparent by default. |

## Left out

- `Avm2Domain.LookupMultiname`: the property map that resolves a
  multiname (`get_with_ns_for_multiname`, `get_for_multiname`) is not part
  of this model. Its body takes the first of the multiname's namespaces
  that holds the local name. Its contract promises only some matching
  namespace. That a multiname without a local name finds nothing is an
  assumption about the property map: `get_class` (domain.rs line 138) has no
  local-name guard of its own, so `NoLocalNameResolvesNothing` rests on it
  for classes.
- `Avm2Domain.Domain.GetDefiningScript` and `Avm2Domain.Domain.GetClass`:
  the source wraps the answer in a `Result` whose error case is never
  produced, so the model answers an `Option`.
- `Avm2Domain.Domain.FindDefiningScript`: error 1065 is raised only for a
  multiname that has a local name. An unresolved multiname without one
  fails with the plain "Attempted to resolve uninitiated multiname" error.
- `Avm2Domain.Domain.InitDefaultDomainMemory` and
  `Avm2Domain.Domain.Movie`: constructing the ByteArray can fail in the
  source (its error is propagated, then unwrapped in `movie_domain`). The
  model takes construction to succeed. A ByteArray is its length only.
- `get_defined_value` and the rest of `get_defined_value_handling_vector`
  are left out, because they read script globals and call the Vector class
  (`class.apply`). Only the name split is modelled. `is_avm2_global_domain`
  compares against the interpreter's global domain and is left out.
- Garbage-collector plumbing (`GcCell`, `MutationContext`) is left out.
  Dafny references stand for it.
- Failures of object construction are left out: `proto.construct(..)?` in
  the `rectangle` property and in `getColorBoundsRect`
  (bitmap_data.rs lines 139-147 and 661-662), and a failing
  `reference_error(..)?` in `find_defining_script` (domain.rs lines
  159-168). The model takes each construction to succeed.
- Value coercion is left out: the `coerce_to_*` rules, errors they throw,
  and the saturating `coerce_to_f64(...) as i32` casts. Every argument is
  given already coerced. `Option` marks an argument whose presence matters:
  absent, or missing as an own stored property.
- `is_size_valid` depends on the player version. It is the `isSizeValid`
  parameter.
- The pixel algorithms of `crate::bitmap::operations` are native code and
  not part of this model. An operation is recorded as reaching the bitmap,
  and what it answers is a parameter of `Invoke`, constrained by
  `AnswerFits` to the kind the operation reports. The trace records
  queries as well as changes.
- `BitmapDataScript.Invoke`: the new BitmapData object that `clone` and
  `compare` wrap their native result in is required to be live and to
  differ from the receiver (and from compare's other bitmap); that it is
  freshly allocated, distinct from every other object, is not stated.
- The internals of the bitmap object's `dispose` and `init_pixels` are not
  part of this model: beyond the flags and the size, what they free or
  allocate is not shown. The model keeps the disposed flag when pixels are
  re-initialised.
- `draw`, `perlinNoise` and `loadBitmap` are left out. They need the
  renderer and floating point, noise generation, and the movie library.
- The tracing and stub diagnostics of `applyFilter`, `generateFilterRect`
  and `pixelDissolve` are left out.
- `create_proto` and `create_bitmap_data_object` are left out. The
  `PlanFor` dispatcher stands in for the method table.
- The i32 additions and subtractions in `colorTransform` and `hitTest`
  panic on overflow in a debug build. The model takes the release build's
  wrap-around.
- The floating-point multipliers of a ColorTransform are left out. A
  transform is an opaque handle.
