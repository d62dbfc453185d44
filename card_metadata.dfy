/**
 * The canonical metadata record the inspiration view writes into a card's
 * `<!---cw-data … --->` region: the `upsertCwData*` builders, the floating
 * fields and the resolution of a floating card's geometry.
 *
 * Every builder starts from the object the old region parses to (an empty bag
 * when there is none), keeps `warning` and `ispinned`, writes `color`, `tags`
 * and `images` only when they are valid and non-empty, and writes the floating
 * fields all together or not at all. Geometry is kept in integers: the
 * `Math.round` calls are the identity here.
 */
module CardMetadata {
  import opened Wrappers
  import opened Text
  import opened Seqs
  import opened Json
  import opened MetadataRecord
  import opened CardCodec

  const WarningText: string := "数据由灵感便签管理，请勿删除或手动修改"
  const FloatingMinWidth: int := 280
  const FloatingMinBodyHeight: int := 40

  datatype Geometry = Geometry(left: int, top: int, width: int, height: int)

  /** `floatingStartPosByPath`: the geometry of the floating panels currently on screen, by file path. */
  type GeometryMemory = map<string, Geometry>

  /** `obj.k` on a parsed object. */
  function Read(obj: Metadata, k: Key): Option<JValue>
  {
    Get(obj, KeyName(k))
  }

  /* --------------------------------------------------------------- geometry */

  /** The minimum sizes applied to a geometry before it is written; a geometry that meets them is unchanged. */
  function Clamped(g: Geometry): (r: Geometry)
    ensures r.left == g.left && r.top == g.top
    ensures r.width >= FloatingMinWidth && r.height >= FloatingMinBodyHeight
    ensures r.width == g.width || (g.width < FloatingMinWidth && r.width == FloatingMinWidth)
    ensures r.height == g.height || (g.height < FloatingMinBodyHeight && r.height == FloatingMinBodyHeight)
    ensures g.width >= FloatingMinWidth && g.height >= FloatingMinBodyHeight ==> r == g
  {
    Geometry(g.left, g.top, Max(FloatingMinWidth, g.width), Max(FloatingMinBodyHeight, g.height))
  }

  function Max(a: int, b: int): int
  {
    if a >= b then a else b
  }

  /** `filePath ? floatingStartPosByPath.get(filePath) : null`: an empty path is no path. */
  function MemoryEntry(memory: GeometryMemory, filePath: Option<string>): Option<Geometry>
  {
    if filePath.Some? && filePath.value != [] && filePath.value in memory then Some(memory[filePath.value]) else None
  }

  /**
   * `resolveFloatingGeometry`: the on-screen geometry of the path when there is
   * one, otherwise the persisted `floatx`/`floaty`/`floatw`/`floath`, which must
   * all be finite numbers; either way clamped to the minimum sizes.
   */
  function ResolveFloatingGeometry(obj: Metadata, filePath: Option<string>, memory: GeometryMemory): (r: Option<Geometry>)
    ensures r.Some? ==> r.value.width >= FloatingMinWidth && r.value.height >= FloatingMinBodyHeight
    ensures MemoryEntry(memory, filePath).Some? ==> r == Some(Clamped(MemoryEntry(memory, filePath).value))
    ensures MemoryEntry(memory, filePath).None? ==>
              (r.Some? <==> PersistedGeometry(obj).Some?)
              && (r.Some? ==> r.value == Clamped(PersistedGeometry(obj).value))
  {
    var fromMemory := MemoryEntry(memory, filePath);
    if fromMemory.Some? then Some(Clamped(fromMemory.value))
    else
      var g := PersistedGeometry(obj);
      if g.None? then None else Some(Clamped(g.value))
  }

  /** The four persisted coordinates, when every one of them is a finite number. */
  function PersistedGeometry(obj: Metadata): (r: Option<Geometry>)
    ensures r.Some? <==>
              NormalizeFiniteNumber(Read(obj, FloatX)).Some? && NormalizeFiniteNumber(Read(obj, FloatY)).Some?
              && NormalizeFiniteNumber(Read(obj, FloatW)).Some? && NormalizeFiniteNumber(Read(obj, FloatH)).Some?
    ensures r.Some? ==>
              Read(obj, FloatX) == Some(JNum(Finite(r.value.left))) && Read(obj, FloatY) == Some(JNum(Finite(r.value.top)))
              && Read(obj, FloatW) == Some(JNum(Finite(r.value.width))) && Read(obj, FloatH) == Some(JNum(Finite(r.value.height)))
  {
    var left := NormalizeFiniteNumber(Read(obj, FloatX));
    var top := NormalizeFiniteNumber(Read(obj, FloatY));
    var width := NormalizeFiniteNumber(Read(obj, FloatW));
    var height := NormalizeFiniteNumber(Read(obj, FloatH));
    if left.None? || top.None? || width.None? || height.None? then None
    else Some(Geometry(left.value, top.value, width.value, height.value))
  }

  /* ---------------------------------------------------------- record fields */

  /** The record holds the four coordinates of `g`, or none of them when there is no geometry. */
  predicate HoldsGeometry(r: Record, g: Option<Geometry>)
  {
    if g.Some? then
      Lookup(r, FloatX) == Some(SInt(g.value.left)) && Lookup(r, FloatY) == Some(SInt(g.value.top))
      && Lookup(r, FloatW) == Some(SInt(g.value.width)) && Lookup(r, FloatH) == Some(SInt(g.value.height))
    else
      Lookup(r, FloatX).None? && Lookup(r, FloatY).None? && Lookup(r, FloatW).None? && Lookup(r, FloatH).None?
  }

  predicate NoFloatingKeys(r: Record)
  {
    Lookup(r, IsFloating).None? && Lookup(r, FloatX).None? && Lookup(r, FloatY).None?
    && Lookup(r, FloatW).None? && Lookup(r, FloatH).None?
  }

  /** The value `if (v) normalized[k] = v` writes, if any. */
  function TextField(v: Option<string>): Option<Scalar>
  {
    if v.Some? && v.value != [] then Some(SStr(v.value)) else None
  }

  /** `if (v) normalized[k] = v`: a missing or empty text writes nothing. */
  function WithText(r: Record, k: Key, v: Option<string>): (r': Record)
    ensures Lookup(r', k) == if TextField(v).Some? then TextField(v) else Lookup(r, k)
  {
    if v.Some? && v.value != [] then Assign(r, k, SStr(v.value)) else r
  }

  /** The two records agree on every field that is not a floating one. */
  predicate SameFields(a: Record, b: Record)
  {
    Lookup(a, Warning) == Lookup(b, Warning) && Lookup(a, IsPinned) == Lookup(b, IsPinned)
    && Lookup(a, Color) == Lookup(b, Color) && Lookup(a, Tags) == Lookup(b, Tags) && Lookup(a, Images) == Lookup(b, Images)
  }

  /** The four coordinates, written when there is a geometry. */
  function WithGeometry(r: Record, g: Option<Geometry>): (r': Record)
    requires HoldsGeometry(r, None)
    ensures HoldsGeometry(r', g)
    ensures SameFields(r', r) && Lookup(r', IsFloating) == Lookup(r, IsFloating)
  {
    if g.None? then r
    else
      var r1 := Assign(r, FloatX, SInt(g.value.left));
      var r2 := Assign(r1, FloatY, SInt(g.value.top));
      var r3 := Assign(r2, FloatW, SInt(g.value.width));
      Assign(r3, FloatH, SInt(g.value.height))
  }

  /** `isfloating: true` followed by the geometry, if any. */
  function FloatingFields(normalized: Record, g: Option<Geometry>): (r: Record)
    requires NoFloatingKeys(normalized)
    ensures Lookup(r, IsFloating) == Some(SBool(true)) && HoldsGeometry(r, g)
    ensures SameFields(r, normalized)
  {
    var r1 := Assign(normalized, IsFloating, SBool(true));
    WithGeometry(r1, g)
  }

  /** The floating fields a record built from the old object `obj` carries: all of them when it said `isfloating: true`, none otherwise. */
  predicate FloatingCarriedOver(r: Record, obj: Metadata, filePath: Option<string>, memory: GeometryMemory)
  {
    if IsTrue(Read(obj, IsFloating)) then
      Lookup(r, IsFloating) == Some(SBool(true)) && HoldsGeometry(r, ResolveFloatingGeometry(obj, filePath, memory))
    else
      NoFloatingKeys(r)
  }

  /**
   * `applyFloatingFields`: when the old object says `isfloating: true`, the
   * record gets `isfloating` and, if one resolves, the geometry; otherwise it is
   * left as it is.
   */
  function ApplyFloatingFields(normalized: Record, obj: Metadata, filePath: Option<string>, memory: GeometryMemory): (r: Record)
    requires NoFloatingKeys(normalized)
    ensures FloatingCarriedOver(r, obj, filePath, memory)
    ensures SameFields(r, normalized)
  {
    if !IsTrue(Read(obj, IsFloating)) then normalized
    else FloatingFields(normalized, ResolveFloatingGeometry(obj, filePath, memory))
  }

  /* --------------------------------------------------------------- builders */

  /** `parseCwDataObject(cwDataBody) ?? {}`. */
  function ObjOf(cwDataBody: Option<string>, parse: JsonParser): Metadata
  {
    ParseCwDataObject(cwDataBody, parse).GetOr(map[])
  }

  /** `typeof obj.ispinned === "boolean" ? obj.ispinned : false`. */
  function PinnedFlag(obj: Metadata): bool
  {
    match Read(obj, IsPinned)
    case Some(JBool(b)) => b
    case _ => false
  }

  /** The colour an old object carries over: its `color` when that is a valid hex colour. */
  function ColorOf(obj: Metadata): Option<string>
  {
    NormalizeHexColor(Read(obj, Color))
  }

  /** The tags CSV an old object carries over. */
  function TagsCsvOf(obj: Metadata): Option<string>
  {
    FormatTagCsv(TagTokens(Read(obj, Tags)))
  }

  /** The images CSV an old object carries over. */
  function ImagesCsvOf(obj: Metadata): Option<string>
  {
    FormatImageCsv(ExtractImagePaths(Read(obj, Images)))
  }

  /** The fields a builder writes besides the floating ones. */
  predicate CanonicalRecord(r: Record, warning: string, pinned: bool, color: Option<Scalar>, tags: Option<string>, images: Option<string>)
  {
    Lookup(r, Warning) == Some(SStr(warning))
    && Lookup(r, IsPinned) == Some(SBool(pinned))
    && Lookup(r, Color) == color
    && Lookup(r, Tags) == TextField(tags)
    && Lookup(r, Images) == TextField(images)
  }

  /** `if (tagsCsv) normalized.tags = tagsCsv; if (imagesCsv) normalized.images = imagesCsv`. */
  function WithTagsAndImages(r: Record, tags: Option<string>, images: Option<string>): (r': Record)
    requires NoFloatingKeys(r) && Lookup(r, Tags).None? && Lookup(r, Images).None?
    ensures NoFloatingKeys(r')
    ensures Lookup(r', Tags) == TextField(tags) && Lookup(r', Images) == TextField(images)
    ensures Lookup(r', Warning) == Lookup(r, Warning) && Lookup(r', IsPinned) == Lookup(r, IsPinned)
    ensures Lookup(r', Color) == Lookup(r, Color)
  {
    WithText(WithText(r, Tags, tags), Images, images)
  }

  /** `{ warning, ispinned }`, then the colour, tags and images that are present. */
  function Normalized(warning: string, pinned: bool, color: Option<string>, tags: Option<string>, images: Option<string>): (r: Record)
    ensures CanonicalRecord(r, warning, pinned, TextField(color), tags, images)
    ensures NoFloatingKeys(r)
  {
    var head := Assign(Assign(Empty, Warning, SStr(warning)), IsPinned, SBool(pinned));
    WithTagsAndImages(WithText(head, Color, color), tags, images)
  }

  /** `upsertCwDataColor` on the old object: the colour is the upper-cased argument and comes before `ispinned`. */
  function ColorRecord(warning: string, obj: Metadata, hex: string, filePath: Option<string>, memory: GeometryMemory): (r: Record)
    ensures CanonicalRecord(r, warning, PinnedFlag(obj), Some(SStr(ToUpper(hex))), TagsCsvOf(obj), ImagesCsvOf(obj))
    ensures FloatingCarriedOver(r, obj, filePath, memory)
  {
    var head := ColorHead(warning, ToUpper(hex), PinnedFlag(obj));
    ApplyFloatingFields(WithTagsAndImages(head, TagsCsvOf(obj), ImagesCsvOf(obj)), obj, filePath, memory)
  }

  /** `{ warning, color, ispinned }`, in that order. */
  function ColorHead(warning: string, color: string, pinned: bool): (r: Record)
    ensures r.order == [Warning, Color, IsPinned]
    ensures Lookup(r, Warning) == Some(SStr(warning)) && Lookup(r, Color) == Some(SStr(color))
    ensures Lookup(r, IsPinned) == Some(SBool(pinned))
    ensures NoFloatingKeys(r) && Lookup(r, Tags).None? && Lookup(r, Images).None?
  {
    Assign(Assign(Assign(Empty, Warning, SStr(warning)), Color, SStr(color)), IsPinned, SBool(pinned))
  }

  /** `upsertCwDataPinned` on the old object: `ispinned` is the argument; everything else is carried over. */
  function PinnedRecord(warning: string, obj: Metadata, pinned: bool, filePath: Option<string>, memory: GeometryMemory): (r: Record)
    ensures CanonicalRecord(r, warning, pinned, TextField(ColorOf(obj)), TagsCsvOf(obj), ImagesCsvOf(obj))
    ensures FloatingCarriedOver(r, obj, filePath, memory)
  {
    ApplyFloatingFields(Normalized(warning, pinned, ColorOf(obj), TagsCsvOf(obj), ImagesCsvOf(obj)), obj, filePath, memory)
  }

  /** The tags CSV the editor's tag line is written as. */
  function TagLineCsv(tagsLine: string): Option<string>
  {
    FormatTagCsv(TagTokens(Some(JStr(tagsLine))))
  }

  /** `upsertCwDataCardContent` on the old object: tags and images come from the editor; pin, colour and floating are carried over. */
  function CardContentRecord(warning: string, obj: Metadata, tagsLine: string, images: seq<string>, filePath: Option<string>,
                             memory: GeometryMemory): (r: Record)
    ensures CanonicalRecord(r, warning, PinnedFlag(obj), TextField(ColorOf(obj)), TagLineCsv(tagsLine), FormatImageCsv(images))
    ensures FloatingCarriedOver(r, obj, filePath, memory)
  {
    var normalized := Normalized(warning, PinnedFlag(obj), ColorOf(obj), TagLineCsv(tagsLine), FormatImageCsv(images));
    ApplyFloatingFields(normalized, obj, filePath, memory)
  }

  /** The geometry `upsertCwDataFloating` writes: the one given, or else the resolved one. */
  function ChosenGeometry(obj: Metadata, filePath: Option<string>, geometry: Option<Geometry>, memory: GeometryMemory): Option<Geometry>
  {
    if geometry.Some? then geometry else ResolveFloatingGeometry(obj, filePath, memory)
  }

  /**
   * `upsertCwDataFloating` on the old object: with `floating` the record gets
   * `isfloating` and the given geometry, or else the resolved one; without it,
   * no floating field at all, whatever the old object said.
   */
  function FloatingRecord(warning: string, obj: Metadata, floating: bool, filePath: Option<string>, geometry: Option<Geometry>,
                          memory: GeometryMemory): (r: Record)
    ensures CanonicalRecord(r, warning, PinnedFlag(obj), TextField(ColorOf(obj)), TagsCsvOf(obj), ImagesCsvOf(obj))
    ensures floating ==> Lookup(r, IsFloating) == Some(SBool(true)) && HoldsGeometry(r, ChosenGeometry(obj, filePath, geometry, memory))
    ensures !floating ==> NoFloatingKeys(r)
  {
    var normalized := Normalized(warning, PinnedFlag(obj), ColorOf(obj), TagsCsvOf(obj), ImagesCsvOf(obj));
    if floating then FloatingFields(normalized, ChosenGeometry(obj, filePath, geometry, memory))
    else normalized
  }

  /** The text each builder returns: `JSON.stringify(normalized, null, 2)`. */
  function UpsertCwDataColor(cwDataBody: Option<string>, hex: string, filePath: Option<string>, memory: GeometryMemory,
                             parse: JsonParser): string
  {
    Stringify(ColorRecord(WarningText, ObjOf(cwDataBody, parse), hex, filePath, memory))
  }

  function UpsertCwDataPinned(cwDataBody: Option<string>, pinned: bool, filePath: Option<string>, memory: GeometryMemory,
                              parse: JsonParser): string
  {
    Stringify(PinnedRecord(WarningText, ObjOf(cwDataBody, parse), pinned, filePath, memory))
  }

  function UpsertCwDataCardContent(cwDataBody: Option<string>, tagsLine: string, images: seq<string>, filePath: Option<string>,
                                   memory: GeometryMemory, parse: JsonParser): string
  {
    Stringify(CardContentRecord(WarningText, ObjOf(cwDataBody, parse), tagsLine, images, filePath, memory))
  }

  function UpsertCwDataFloating(cwDataBody: Option<string>, floating: bool, filePath: Option<string>, geometry: Option<Geometry>,
                                memory: GeometryMemory, parse: JsonParser): string
  {
    Stringify(FloatingRecord(WarningText, ObjOf(cwDataBody, parse), floating, filePath, geometry, memory))
  }

  /* ------------------------------------------------------------- read back */

  /**
   * The hypothesis about the foreign parser: the serialised record, once its
   * bare colours are quoted, parses to the property bag the record stands for.
   */
  predicate ReadsBack(parse: JsonParser, r: Record)
  {
    parse(QuoteBareColors(Stringify(r))) == Some(JObj(ToMetadata(r)))
  }

  /** The region a builder wrote parses back to its record's property bag. */
  lemma {:induction false} ObjOfStringify(r: Record, parse: JsonParser)
    requires ReadsBack(parse, r)
    ensures ObjOf(Some(Stringify(r)), parse) == ToMetadata(r)
  {
    var text := Stringify(r);
    assert !IsBlank(text);
  }

  lemma {:induction false} ReadOf(r: Record, k: Key)
    ensures Read(ToMetadata(r), k) == ValueOf(Lookup(r, k))
  {
  }

  /** A written `ispinned` reads back as itself. */
  lemma {:induction false} PinnedReadBack(r: Record, pinned: bool)
    requires Lookup(r, IsPinned) == Some(SBool(pinned))
    ensures PinnedFlag(ToMetadata(r)) == pinned
  {
    ReadOf(r, IsPinned);
  }

  /** A colour carried over reads back as the same colour. */
  lemma {:induction false} ColorReadBack(r: Record, obj: Metadata)
    requires Lookup(r, Color) == TextField(ColorOf(obj))
    ensures ColorOf(ToMetadata(r)) == ColorOf(obj)
  {
    ReadOf(r, Color);
    if ColorOf(obj).Some? {
      NormalizeHexColorIdempotent(Read(obj, Color));
    }
  }

  /** A tags CSV written from canonical tokens reads back as those tokens. */
  lemma {:induction false} TagsReadBack(r: Record, tokens: seq<string>)
    requires NoDups(tokens) && forall i :: 0 <= i < |tokens| ==> WellFormedTag(tokens[i])
    requires Lookup(r, Tags) == TextField(FormatTagCsv(tokens))
    ensures TagTokens(Read(ToMetadata(r), Tags)) == tokens
  {
    ReadOf(r, Tags);
    TagCsvRoundTrip(tokens);
    if tokens != [] {
      assert |Join(tokens, ",")| >= |tokens[0]| >= 2;
    }
  }

  /** An images CSV reads back as the canonical list it was formatted from. */
  lemma {:induction false} ImagesReadBack(r: Record, paths: seq<string>)
    requires forall p :: p in paths ==> ',' !in p
    requires Lookup(r, Images) == TextField(FormatImageCsv(paths))
    ensures ExtractImagePaths(Read(ToMetadata(r), Images)) == CanonicalImagePaths(paths)
  {
    ReadOf(r, Images);
    ImageCsvRoundTrip(paths);
    var n := CanonicalImagePaths(paths);
    if n != [] {
      CanonicalImagePathsTrimmed(paths);
      assert |Join(n, ",")| >= |n[0]| > 0;
    }
  }

  /** The images an old object carries over are already canonical, so they read back unchanged. */
  lemma {:induction false} ImagesCarriedReadBack(r: Record, obj: Metadata)
    requires Lookup(r, Images) == TextField(ImagesCsvOf(obj))
    ensures ImagesCsvOf(ToMetadata(r)) == ImagesCsvOf(obj)
  {
    var paths := ExtractImagePaths(Read(obj, Images));
    ImagesReadBack(r, paths);
    forall i | 0 <= i < |paths|
      ensures CanonicalPath(paths[i])
    {
      assert paths[i] in paths;
    }
    CanonicalImagePathsOfCanonical(paths);
  }

  /** A geometry written with the minimum sizes met resolves to itself when no panel of the path is on screen. */
  lemma {:induction false} GeometryReadBack(r: Record, g: Option<Geometry>, filePath: Option<string>, memory: GeometryMemory)
    requires HoldsGeometry(r, g)
    requires g.Some? ==> g.value.width >= FloatingMinWidth && g.value.height >= FloatingMinBodyHeight
    requires MemoryEntry(memory, filePath).None?
    ensures ResolveFloatingGeometry(ToMetadata(r), filePath, memory) == g
  {
    ReadOf(r, FloatX);
    ReadOf(r, FloatY);
    ReadOf(r, FloatW);
    ReadOf(r, FloatH);
  }

  /** The floating fields carried over from `obj` are carried over again, unchanged, from the record's own read-back. */
  lemma {:induction false} FloatingReadBack(r: Record, obj: Metadata, filePath: Option<string>, memory: GeometryMemory)
    requires FloatingCarriedOver(r, obj, filePath, memory)
    ensures IsTrue(Read(ToMetadata(r), IsFloating)) == IsTrue(Read(obj, IsFloating))
    ensures IsTrue(Read(obj, IsFloating)) ==>
              ResolveFloatingGeometry(ToMetadata(r), filePath, memory) == ResolveFloatingGeometry(obj, filePath, memory)
  {
    ReadOf(r, IsFloating);
    if IsTrue(Read(obj, IsFloating)) && MemoryEntry(memory, filePath).None? {
      GeometryReadBack(r, ResolveFloatingGeometry(obj, filePath, memory), filePath, memory);
    }
  }

  /** `applyFloatingFields` depends on the old object only through its `isfloating` flag and resolved geometry. */
  lemma {:induction false} ApplyFloatingFieldsAgree(normalized: Record, obj: Metadata, obj': Metadata, filePath: Option<string>, memory: GeometryMemory)
    requires NoFloatingKeys(normalized)
    requires IsTrue(Read(obj', IsFloating)) == IsTrue(Read(obj, IsFloating))
    requires IsTrue(Read(obj, IsFloating)) ==>
               ResolveFloatingGeometry(obj', filePath, memory) == ResolveFloatingGeometry(obj, filePath, memory)
    ensures ApplyFloatingFields(normalized, obj', filePath, memory) == ApplyFloatingFields(normalized, obj, filePath, memory)
  {
  }

  /** Tags and images carried over from `obj` are carried over again, unchanged, from the record's own read-back. */
  lemma {:induction false} TagsImagesReadBack(r: Record, obj: Metadata)
    requires Lookup(r, Tags) == TextField(TagsCsvOf(obj)) && Lookup(r, Images) == TextField(ImagesCsvOf(obj))
    ensures TagsCsvOf(ToMetadata(r)) == TagsCsvOf(obj) && ImagesCsvOf(ToMetadata(r)) == ImagesCsvOf(obj)
  {
    TagsReadBack(r, TagTokens(Read(obj, Tags)));
    ImagesCarriedReadBack(r, obj);
  }

  /** After saving the editor, the card reads back the tags of its tag line, the canonical images, and its old pin and colour. */
  lemma {:induction false} CardContentReadBack(warning: string, obj: Metadata, tagsLine: string, images: seq<string>, filePath: Option<string>,
                            memory: GeometryMemory)
    requires forall p :: p in images ==> ',' !in p
    ensures var m := ToMetadata(CardContentRecord(warning, obj, tagsLine, images, filePath, memory));
            TagTokens(Read(m, Tags)) == TagTokens(Some(JStr(tagsLine)))
            && ExtractImagePaths(Read(m, Images)) == CanonicalImagePaths(images)
            && PinnedFlag(m) == PinnedFlag(obj) && ColorOf(m) == ColorOf(obj)
  {
    var r := CardContentRecord(warning, obj, tagsLine, images, filePath, memory);
    TagsReadBack(r, TagTokens(Some(JStr(tagsLine))));
    ImagesReadBack(r, images);
    PinnedReadBack(r, PinnedFlag(obj));
    ColorReadBack(r, obj);
  }

  /* ----------------------------------------------------------- idempotence */

  /** Rebuilding the pinned record from its own read-back gives the same record. */
  lemma {:induction false} PinnedRecordIdempotent(warning: string, obj: Metadata, pinned: bool, filePath: Option<string>, memory: GeometryMemory)
    ensures var r := PinnedRecord(warning, obj, pinned, filePath, memory);
            PinnedRecord(warning, ToMetadata(r), pinned, filePath, memory) == r
  {
    var r := PinnedRecord(warning, obj, pinned, filePath, memory);
    ColorReadBack(r, obj);
    TagsImagesReadBack(r, obj);
    FloatingReadBack(r, obj, filePath, memory);
    var normalized := Normalized(warning, pinned, ColorOf(obj), TagsCsvOf(obj), ImagesCsvOf(obj));
    ApplyFloatingFieldsAgree(normalized, obj, ToMetadata(r), filePath, memory);
  }

  /** Pinning a card twice writes the same region as pinning it once. */
  lemma {:induction false} UpsertCwDataPinnedIdempotent(cwDataBody: Option<string>, pinned: bool, filePath: Option<string>, memory: GeometryMemory,
                                     parse: JsonParser)
    requires ReadsBack(parse, PinnedRecord(WarningText, ObjOf(cwDataBody, parse), pinned, filePath, memory))
    ensures var text := UpsertCwDataPinned(cwDataBody, pinned, filePath, memory, parse);
            UpsertCwDataPinned(Some(text), pinned, filePath, memory, parse) == text
  {
    var r := PinnedRecord(WarningText, ObjOf(cwDataBody, parse), pinned, filePath, memory);
    ObjOfStringify(r, parse);
    PinnedRecordIdempotent(WarningText, ObjOf(cwDataBody, parse), pinned, filePath, memory);
  }

  /** Rebuilding the coloured record from its own read-back, with the same colour, gives the same record. */
  lemma {:induction false} ColorRecordIdempotent(warning: string, obj: Metadata, hex: string, filePath: Option<string>, memory: GeometryMemory)
    ensures var r := ColorRecord(warning, obj, hex, filePath, memory);
            ColorRecord(warning, ToMetadata(r), hex, filePath, memory) == r
  {
    var r := ColorRecord(warning, obj, hex, filePath, memory);
    PinnedReadBack(r, PinnedFlag(obj));
    TagsImagesReadBack(r, obj);
    FloatingReadBack(r, obj, filePath, memory);
    var head := ColorHead(warning, ToUpper(hex), PinnedFlag(obj));
    ApplyFloatingFieldsAgree(WithTagsAndImages(head, TagsCsvOf(obj), ImagesCsvOf(obj)), obj, ToMetadata(r), filePath, memory);
  }

  lemma {:induction false} UpsertCwDataColorIdempotent(cwDataBody: Option<string>, hex: string, filePath: Option<string>, memory: GeometryMemory,
                                    parse: JsonParser)
    requires ReadsBack(parse, ColorRecord(WarningText, ObjOf(cwDataBody, parse), hex, filePath, memory))
    ensures var text := UpsertCwDataColor(cwDataBody, hex, filePath, memory, parse);
            UpsertCwDataColor(Some(text), hex, filePath, memory, parse) == text
  {
    var r := ColorRecord(WarningText, ObjOf(cwDataBody, parse), hex, filePath, memory);
    ObjOfStringify(r, parse);
    ColorRecordIdempotent(WarningText, ObjOf(cwDataBody, parse), hex, filePath, memory);
  }

  /** Saving the same tag line and images again gives the same record. */
  lemma {:induction false} CardContentRecordIdempotent(warning: string, obj: Metadata, tagsLine: string, images: seq<string>, filePath: Option<string>,
                                    memory: GeometryMemory)
    ensures var r := CardContentRecord(warning, obj, tagsLine, images, filePath, memory);
            CardContentRecord(warning, ToMetadata(r), tagsLine, images, filePath, memory) == r
  {
    var r := CardContentRecord(warning, obj, tagsLine, images, filePath, memory);
    PinnedReadBack(r, PinnedFlag(obj));
    ColorReadBack(r, obj);
    FloatingReadBack(r, obj, filePath, memory);
    var normalized := Normalized(warning, PinnedFlag(obj), ColorOf(obj), TagLineCsv(tagsLine), FormatImageCsv(images));
    ApplyFloatingFieldsAgree(normalized, obj, ToMetadata(r), filePath, memory);
  }

  lemma {:induction false} UpsertCwDataCardContentIdempotent(cwDataBody: Option<string>, tagsLine: string, images: seq<string>, filePath: Option<string>,
                                          memory: GeometryMemory, parse: JsonParser)
    requires ReadsBack(parse, CardContentRecord(WarningText, ObjOf(cwDataBody, parse), tagsLine, images, filePath, memory))
    ensures var text := UpsertCwDataCardContent(cwDataBody, tagsLine, images, filePath, memory, parse);
            UpsertCwDataCardContent(Some(text), tagsLine, images, filePath, memory, parse) == text
  {
    var r := CardContentRecord(WarningText, ObjOf(cwDataBody, parse), tagsLine, images, filePath, memory);
    ObjOfStringify(r, parse);
    CardContentRecordIdempotent(WarningText, ObjOf(cwDataBody, parse), tagsLine, images, filePath, memory);
  }

  /** Floating (or docking) a card twice gives the same record as doing it once. */
  lemma {:induction false} FloatingRecordIdempotent(warning: string, obj: Metadata, floating: bool, filePath: Option<string>, geometry: Option<Geometry>,
                                 memory: GeometryMemory)
    ensures var r := FloatingRecord(warning, obj, floating, filePath, geometry, memory);
            FloatingRecord(warning, ToMetadata(r), floating, filePath, geometry, memory) == r
  {
    var r := FloatingRecord(warning, obj, floating, filePath, geometry, memory);
    PinnedReadBack(r, PinnedFlag(obj));
    ColorReadBack(r, obj);
    TagsImagesReadBack(r, obj);
    if floating && geometry.None? && MemoryEntry(memory, filePath).None? {
      GeometryReadBack(r, ResolveFloatingGeometry(obj, filePath, memory), filePath, memory);
    }
  }

  lemma {:induction false} UpsertCwDataFloatingIdempotent(cwDataBody: Option<string>, floating: bool, filePath: Option<string>, geometry: Option<Geometry>,
                                       memory: GeometryMemory, parse: JsonParser)
    requires ReadsBack(parse, FloatingRecord(WarningText, ObjOf(cwDataBody, parse), floating, filePath, geometry, memory))
    ensures var text := UpsertCwDataFloating(cwDataBody, floating, filePath, geometry, memory, parse);
            UpsertCwDataFloating(Some(text), floating, filePath, geometry, memory, parse) == text
  {
    var r := FloatingRecord(WarningText, ObjOf(cwDataBody, parse), floating, filePath, geometry, memory);
    ObjOfStringify(r, parse);
    FloatingRecordIdempotent(WarningText, ObjOf(cwDataBody, parse), floating, filePath, geometry, memory);
  }
}
