/**
 * The editor of one card in the inspiration view: the state `renderFileItem`
 * keeps in its closure and the handlers that change it.
 *
 * Saves are serialised: each `saveContent` call takes a fresh request id and
 * appends a run to the card's promise chain, which runs one at a time in
 * order. A run whose id is no longer the latest returns at once; a run that
 * would write the text last saved returns without writing; otherwise it
 * writes, and only a successful write advances the saved baseline, the
 * metadata body and the card's model. The chain is a queue of request ids
 * here, a run is `RunNext` followed, when it writes, by `CompleteWrite` with
 * the vault's outcome, and the debounce timer is a pending-timer set whose
 * expiry is the event `TimerFires`.
 *
 * The colour, pin and floating handlers write directly, outside the chain;
 * each is one step here, with the vault's outcome as a parameter.
 */
module CardSession {
  import opened Wrappers
  import opened Text
  import opened Json
  import opened CardCodec
  import opened CardFile
  import opened CardMetadata
  import opened InspirationStore

  /** The debounce delay of `scheduleAutoSave`, in milliseconds. */
  const AutoSaveDelayMs: nat := 300

  /**
   * The codec operations an editor calls. An editor holds the plugin's own
   * (`CardCodecOf`), fixed when it is created; its steps are stated in terms of
   * these calls.
   */
  datatype Codec = Codec(
    compose: (Option<string>, Option<string>, string) -> string,
    normalizeTagLine: string -> string,
    upsertContent: (Option<string>, string, seq<string>, string, GeometryMemory) -> string,
    upsertColor: (Option<string>, string, string, GeometryMemory) -> string,
    upsertPinned: (Option<string>, bool, string, GeometryMemory) -> string,
    upsertFloating: (Option<string>, bool, string, Option<Geometry>, GeometryMemory) -> string)

  /** `composeContent`, `normalizeTagLine` and the `upsertCwData*` builders over `JSON.parse`. */
  function CardCodecOf(parse: JsonParser): Codec
  {
    Codec(
      ComposeContent,
      NormalizeTagLine,
      (cw, tags, images, path, memory) => UpsertCwDataCardContent(cw, tags, images, Some(path), memory, parse),
      (cw, hex, path, memory) => UpsertCwDataColor(cw, hex, Some(path), memory, parse),
      (cw, pinned, path, memory) => UpsertCwDataPinned(cw, pinned, Some(path), memory, parse),
      (cw, floating, path, geometry, memory) => UpsertCwDataFloating(cw, floating, Some(path), geometry, memory, parse))
  }

  /** A write the chain has handed to the vault and not yet seen finish. */
  datatype PendingWrite = PendingWrite(content: string, cwData: string, tagsLine: string, body: string)

  /** What a run of the save chain did. */
  datatype RunOutcome = Superseded | Unchanged | Writing

  /** What a structural handler did. */
  datatype WriteOutcome = Refused | NothingToSave | Saved | Failed

  /** What `handleAddImage` did. */
  datatype AddImageOutcome = NoSelection | AlreadyAdded | LimitReached | Added

  function ContentPatch(fm: Option<string>, cw: string, body: string, tagsLine: string, images: seq<string>): Patch
  {
    NoPatch.(frontmatterBody := Some(fm), cwDataBody := Some(Some(cw)), body := Some(body), tagsLine := Some(tagsLine),
             images := Some(images))
  }

  function ColorPatch(cw: string, color: string): Patch
  {
    NoPatch.(cwDataBody := Some(Some(cw)), color := Some(Some(color)))
  }

  function PinPatch(cw: string, pinned: bool): Patch
  {
    NoPatch.(cwDataBody := Some(Some(cw)), isPinned := Some(pinned))
  }

  function Coordinate(g: Option<Geometry>, f: Geometry -> int): Option<int>
  {
    if g.Some? then Some(f(g.value)) else None
  }

  function FloatPatch(cw: string, pinned: bool, floating: bool, g: Option<Geometry>): Patch
  {
    NoPatch.(cwDataBody := Some(Some(cw)), isPinned := Some(pinned), isFloating := Some(floating),
             floatingX := Some(Coordinate(g, (g: Geometry) => g.left)), floatingY := Some(Coordinate(g, (g: Geometry) => g.top)),
             floatingWidth := Some(Coordinate(g, (g: Geometry) => g.width)),
             floatingHeight := Some(Coordinate(g, (g: Geometry) => g.height)))
  }

  /** Queued runs have increasing ids, none later than the latest request. */
  ghost predicate ChainValid(saveChain: seq<nat>, saveRequestId: nat)
  {
    && (forall i, j :: 0 <= i < j < |saveChain| ==> saveChain[i] < saveChain[j])
    && (forall i :: 0 <= i < |saveChain| ==> saveChain[i] <= saveRequestId)
  }

  /** Taking the oldest run off a valid chain leaves a valid chain. */
  lemma {:induction false} ChainTail(saveChain: seq<nat>, saveRequestId: nat)
    requires ChainValid(saveChain, saveRequestId) && saveChain != []
    ensures ChainValid(saveChain[1..], saveRequestId)
  {
    var t := saveChain[1..];
    forall i, j | 0 <= i < j < |t| ensures t[i] < t[j] {
      assert t[i] == saveChain[i + 1] && t[j] == saveChain[j + 1];
    }
  }

  /** The debounce timer is the one pending timer, if any, and was issued already. */
  ghost predicate TimersValid(saveDebounceTimer: Option<nat>, pendingTimers: set<nat>, nextTimerId: nat)
  {
    && (saveDebounceTimer.None? ==> pendingTimers == {})
    && (saveDebounceTimer.Some? ==> pendingTimers == {saveDebounceTimer.value})
    && (forall t :: t in pendingTimers ==> t < nextTimerId)
  }

  class CardEditor {
    const view: InspirationView
    const filePath: string
    const codec: Codec
    const frontmatterBody: Option<string>
    var cwDataBody: Option<string>
    var isPinned: bool
    var isFloating: bool
    var currentColor: Option<string>
    var currentBody: string
    var currentTagsLine: string
    var currentImages: seq<string>
    /** `textareaEl.value`. */
    var editorText: string
    /** `tagsEditorEl.value`. */
    var tagsEditorText: string
    var lastSavedContent: string
    var saveRequestId: nat
    /** The runs queued on `saveChain`, by request id, oldest first. */
    var saveChain: seq<nat>
    var inFlight: Option<PendingWrite>
    var saveDebounceTimer: Option<nat>
    /** The window timers this card has scheduled and neither cleared nor seen fire. */
    var pendingTimers: set<nat>
    var nextTimerId: nat
    /** Every text handed to `vault.modify` for this card, in order. */
    var writes: seq<string>

    ghost predicate Valid()
      reads this
    {
      ChainValid(saveChain, saveRequestId) && TimersValid(saveDebounceTimer, pendingTimers, nextTimerId)
    }

    /* The editor's state in groups, so a step can say which groups it leaves alone. */

    /** The save chain: the latest request id, the queued runs and the write in flight. */
    function Chain(): (nat, seq<nat>, Option<PendingWrite>)
      reads this
    {
      (saveRequestId, saveChain, inFlight)
    }

    /** The debounce timer, the pending timers and the next timer id. */
    function Timers(): (Option<nat>, set<nat>, nat)
      reads this
    {
      (saveDebounceTimer, pendingTimers, nextTimerId)
    }

    /** The two editors' text and the body, tags and images last saved or shown. */
    function Texts(): (string, string, string, string, seq<string>)
      reads this
    {
      (editorText, tagsEditorText, currentBody, currentTagsLine, currentImages)
    }

    /** Colour, pin and floating state. */
    function Flags(): (Option<string>, bool, bool)
      reads this
    {
      (currentColor, isPinned, isFloating)
    }

    /** The saved baseline, the metadata body and the writes handed to the vault. */
    function Stored(): StoredState
      reads this
    {
      (lastSavedContent, cwDataBody, writes)
    }

    /** At most one debounce timer is ever pending. */
    lemma {:induction false} AtMostOneTimer()
      requires Valid()
      ensures |pendingTimers| <= 1
    {
    }

    /** A queued run that is no longer the latest request. */
    predicate IsSuperseded(id: nat)
      reads this
    {
      id != saveRequestId
    }

    /** The editor as `renderFileItem` sets it up from a card's model, calling the plugin's codec (`CardCodecOf`). */
    constructor (view: InspirationView, model: CardModel, codec: Codec)
      ensures Valid()
      ensures this.view == view && this.codec == codec && filePath == model.file.path
      ensures frontmatterBody == model.content.frontmatterBody && cwDataBody == model.content.cwDataBody
      ensures isPinned == model.content.isPinned && isFloating == model.content.isFloating
      ensures currentColor == model.content.color
      ensures currentBody == model.content.body && editorText == model.content.body
      ensures currentTagsLine == model.content.tagsLine && tagsEditorText == model.content.tagsLine
      ensures currentImages == model.content.images
      ensures lastSavedContent == codec.compose(frontmatterBody, cwDataBody, model.content.body)
      ensures saveRequestId == 0 && saveChain == [] && inFlight == None
      ensures saveDebounceTimer == None && pendingTimers == {} && writes == []
    {
      this.view := view;
      this.codec := codec;
      filePath := model.file.path;
      frontmatterBody := model.content.frontmatterBody;
      cwDataBody := model.content.cwDataBody;
      isPinned := model.content.isPinned;
      isFloating := model.content.isFloating;
      currentColor := model.content.color;
      currentBody := model.content.body;
      currentTagsLine := model.content.tagsLine;
      currentImages := model.content.images;
      editorText := model.content.body;
      tagsEditorText := model.content.tagsLine;
      lastSavedContent := codec.compose(model.content.frontmatterBody, model.content.cwDataBody, model.content.body);
      saveRequestId := 0;
      saveChain := [];
      inFlight := None;
      saveDebounceTimer := None;
      pendingTimers := {};
      nextTimerId := 0;
      writes := [];
    }

    /* ------------------------------------------------------- the save chain */

    /**
     * `saveContent`: a fresh, larger request id, queued last. Every run queued
     * before it is now superseded.
     */
    method SaveContent()
      requires Valid()
      modifies this
      ensures Valid()
      ensures saveRequestId == old(saveRequestId) + 1
      ensures saveChain == old(saveChain) + [saveRequestId]
      ensures forall i :: 0 <= i < |saveChain| - 1 ==> IsSuperseded(saveChain[i])
      ensures inFlight == old(inFlight)
      ensures Timers() == old(Timers()) && Texts() == old(Texts()) && Flags() == old(Flags()) && Stored() == old(Stored())
    {
      saveRequestId := saveRequestId + 1;
      saveChain := saveChain + [saveRequestId];
    }

    /**
     * The start of the next queued run. A superseded run does nothing. Otherwise
     * the tag editor shows the normalised tags unless it has focus, and the
     * card's text is composed from the new metadata and the editor; when that
     * is the text last saved nothing is written, else the write starts.
     */
    method RunNext(tagEditorActive: bool) returns (outcome: RunOutcome)
      requires Valid() && saveChain != [] && inFlight.None?
      modifies this
      ensures Valid()
      ensures saveChain == old(saveChain[1..]) && saveRequestId == old(saveRequestId)
      ensures outcome == Superseded <==> old(IsSuperseded(saveChain[0]))
      ensures outcome == Superseded ==> tagsEditorText == old(tagsEditorText) && inFlight == None && writes == old(writes)
      ensures outcome != Superseded ==>
                var p := PrepareWrite(codec, frontmatterBody, old(cwDataBody), old(tagsEditorText), old(currentImages), filePath,
                                      view.floatingStartPosByPath, old(editorText));
                && tagsEditorText == (if tagEditorActive then old(tagsEditorText) else p.tagsLine)
                && if p.content == lastSavedContent then outcome == Unchanged && inFlight == None && writes == old(writes)
                   else outcome == Writing && inFlight == Some(p) && writes == old(writes) + [p.content]
      ensures cwDataBody == old(cwDataBody) && lastSavedContent == old(lastSavedContent)
      ensures editorText == old(editorText) && currentBody == old(currentBody) && currentTagsLine == old(currentTagsLine)
      ensures currentImages == old(currentImages)
      ensures Timers() == old(Timers()) && Flags() == old(Flags())
    {
      var requestId := saveChain[0];
      ChainTail(saveChain, saveRequestId);
      saveChain := saveChain[1..];
      if requestId != saveRequestId {
        return Superseded;
      }
      var pending := PrepareWrite(codec, frontmatterBody, cwDataBody, tagsEditorText, currentImages, filePath,
                                  view.floatingStartPosByPath, editorText);
      if !tagEditorActive && pending.tagsLine != tagsEditorText {
        tagsEditorText := pending.tagsLine;
      }
      if pending.content == lastSavedContent {
        return Unchanged;
      }
      inFlight := Some(pending);
      writes := writes + [pending.content];
      outcome := Writing;
    }

    /**
     * The end of a run's write. On success the baseline, the metadata body, the
     * shown body and tags and the card's model take the written values (body and
     * images as the editor holds them now); on failure nothing changes.
     */
    method CompleteWrite(ok: bool)
      requires Valid() && inFlight.Some?
      modifies this, view
      ensures Valid()
      ensures inFlight == None
      ensures ok ==> lastSavedContent == old(inFlight.value.content) && cwDataBody == Some(old(inFlight.value.cwData))
      ensures ok ==> currentBody == old(editorText) && currentTagsLine == old(inFlight.value.tagsLine)
      ensures ok ==>
                var p := old(inFlight.value);
                view.cardModels == PatchAt(old(view.cardModels), filePath, ContentPatch(frontmatterBody, p.cwData, old(editorText), p.tagsLine, old(currentImages)))
      ensures !ok ==> lastSavedContent == old(lastSavedContent) && cwDataBody == old(cwDataBody)
      ensures !ok ==> currentBody == old(currentBody) && currentTagsLine == old(currentTagsLine)
      ensures !ok ==> view.cardModels == old(view.cardModels)
      ensures view.floatingStartPosByPath == old(view.floatingStartPosByPath)
      ensures saveChain == old(saveChain) && saveRequestId == old(saveRequestId) && writes == old(writes)
      ensures editorText == old(editorText) && tagsEditorText == old(tagsEditorText) && currentImages == old(currentImages)
      ensures Timers() == old(Timers()) && Flags() == old(Flags())
    {
      var pending := inFlight.value;
      inFlight := None;
      if !ok {
        return;
      }
      lastSavedContent := pending.content;
      cwDataBody := Some(pending.cwData);
      currentBody := editorText;
      currentTagsLine := pending.tagsLine;
      view.PatchCardModel(filePath, ContentPatch(frontmatterBody, pending.cwData, currentBody, currentTagsLine, currentImages));
    }

    /* ------------------------------------------------------------- debounce */

    /** `scheduleAutoSave`: the pending timer, if any, is cleared and a fresh one set. */
    method ScheduleAutoSave()
      requires Valid()
      modifies this
      ensures Valid()
      ensures saveDebounceTimer == Some(old(nextTimerId)) && pendingTimers == {old(nextTimerId)}
      ensures nextTimerId == old(nextTimerId) + 1
      ensures Chain() == old(Chain()) && Texts() == old(Texts()) && Flags() == old(Flags()) && Stored() == old(Stored())
    {
      if saveDebounceTimer.Some? {
        pendingTimers := pendingTimers - {saveDebounceTimer.value};
      }
      var timer := nextTimerId;
      nextTimerId := nextTimerId + 1;
      pendingTimers := pendingTimers + {timer};
      saveDebounceTimer := Some(timer);
    }

    /** The pending timer expires: it is forgotten and a save is requested. */
    method TimerFires(timer: nat)
      requires Valid() && timer in pendingTimers
      modifies this
      ensures Valid()
      ensures saveDebounceTimer == None && pendingTimers == {}
      ensures saveRequestId == old(saveRequestId) + 1 && saveChain == old(saveChain) + [saveRequestId]
      ensures nextTimerId == old(nextTimerId) && inFlight == old(inFlight)
      ensures Texts() == old(Texts()) && Flags() == old(Flags()) && Stored() == old(Stored())
    {
      pendingTimers := pendingTimers - {timer};
      saveDebounceTimer := None;
      SaveContent();
    }

    /** `flushAutoSave` (and Ctrl+S): the pending timer is cleared and a save requested at once. */
    method FlushAutoSave()
      requires Valid()
      modifies this
      ensures Valid()
      ensures saveDebounceTimer == None && pendingTimers == {}
      ensures saveRequestId == old(saveRequestId) + 1 && saveChain == old(saveChain) + [saveRequestId]
      ensures nextTimerId == old(nextTimerId) && inFlight == old(inFlight)
      ensures Texts() == old(Texts()) && Flags() == old(Flags()) && Stored() == old(Stored())
    {
      if saveDebounceTimer.Some? {
        pendingTimers := pendingTimers - {saveDebounceTimer.value};
        saveDebounceTimer := None;
      }
      SaveContent();
    }

    /** Typing in the body editor: the text changes and the debounce restarts. */
    method EditBody(text: string)
      requires Valid()
      modifies this
      ensures Valid()
      ensures editorText == text && saveDebounceTimer == Some(old(nextTimerId)) && pendingTimers == {old(nextTimerId)}
      ensures tagsEditorText == old(tagsEditorText) && currentBody == old(currentBody)
      ensures currentTagsLine == old(currentTagsLine) && currentImages == old(currentImages)
      ensures Chain() == old(Chain()) && Flags() == old(Flags()) && Stored() == old(Stored())
    {
      editorText := text;
      ScheduleAutoSave();
    }

    /** Typing in the tag editor. */
    method EditTags(text: string)
      requires Valid()
      modifies this
      ensures Valid()
      ensures tagsEditorText == text && saveDebounceTimer == Some(old(nextTimerId)) && pendingTimers == {old(nextTimerId)}
      ensures editorText == old(editorText) && currentBody == old(currentBody)
      ensures currentTagsLine == old(currentTagsLine) && currentImages == old(currentImages)
      ensures Chain() == old(Chain()) && Flags() == old(Flags()) && Stored() == old(Stored())
    {
      tagsEditorText := text;
      ScheduleAutoSave();
    }

    /* --------------------------------------------------------------- images */

    /**
     * `handleAddImage`: a picked image not yet on the card is appended while
     * fewer than eight are attached, and a save is requested; otherwise the
     * list is unchanged and nothing is saved.
     */
    method AddImage(selected: Option<string>) returns (outcome: AddImageOutcome)
      requires Valid()
      modifies this
      ensures Valid()
      ensures outcome == NoSelection <==> selected.None?
      ensures selected.Some? && selected.value in old(currentImages) <==> outcome == AlreadyAdded
      ensures outcome == LimitReached <==>
                selected.Some? && selected.value !in old(currentImages) && |old(currentImages)| >= MaxImages
      ensures outcome == Added ==> currentImages == old(currentImages) + [selected.value]
      ensures outcome == Added ==> saveRequestId == old(saveRequestId) + 1 && saveChain == old(saveChain) + [saveRequestId]
      ensures outcome != Added ==> currentImages == old(currentImages) && saveChain == old(saveChain)
      ensures |old(currentImages)| <= MaxImages ==> |currentImages| <= MaxImages
      ensures Seqs.NoDups(old(currentImages)) ==> Seqs.NoDups(currentImages)
      ensures inFlight == old(inFlight) && editorText == old(editorText) && tagsEditorText == old(tagsEditorText)
      ensures currentBody == old(currentBody) && currentTagsLine == old(currentTagsLine)
      ensures Timers() == old(Timers()) && Flags() == old(Flags()) && Stored() == old(Stored())
    {
      if selected.None? {
        return NoSelection;
      }
      var imagePath := selected.value;
      if imagePath in currentImages {
        return AlreadyAdded;
      }
      if |currentImages| >= MaxImages {
        return LimitReached;
      }
      currentImages := currentImages + [imagePath];
      SaveContent();
      outcome := Added;
    }

    /**
     * `handleRemoveImage`: every occurrence of the path leaves the list and a
     * save is requested; a path not on the card changes nothing.
     */
    method RemoveImage(imagePath: string) returns (removed: bool)
      requires Valid()
      modifies this
      ensures Valid()
      ensures removed <==> imagePath in old(currentImages)
      ensures currentImages == Without(old(currentImages), imagePath)
      ensures forall p :: p in currentImages <==> p in old(currentImages) && p != imagePath
      ensures |currentImages| <= |old(currentImages)|
      ensures removed ==> saveRequestId == old(saveRequestId) + 1 && saveChain == old(saveChain) + [saveRequestId]
      ensures !removed ==> currentImages == old(currentImages) && saveChain == old(saveChain)
      ensures inFlight == old(inFlight) && editorText == old(editorText) && tagsEditorText == old(tagsEditorText)
      ensures currentBody == old(currentBody) && currentTagsLine == old(currentTagsLine)
      ensures Timers() == old(Timers()) && Flags() == old(Flags()) && Stored() == old(Stored())
    {
      var nextImages := Without(currentImages, imagePath);
      if |nextImages| == |currentImages| {
        WithoutKeeps(currentImages, imagePath);
        assert imagePath !in currentImages;
        return false;
      }
      currentImages := nextImages;
      SaveContent();
      removed := true;
    }

    /* --------------------------------------------------- structural writes */

    /**
     * The write the colour, pin and floating handlers share: the card's text
     * with metadata body `nextCw` is written unless it is the text last saved.
     * A write that goes ahead first sets the view's floating-geometry memory to
     * `nextMemory`; on success the baseline, the metadata body and the card's
     * model (by `patch`) follow.
     */
    method WriteMetadata(nextCw: string, nextMemory: GeometryMemory, patch: Patch, ok: bool)
      returns (outcome: WriteOutcome)
      requires Valid()
      modifies this, view
      ensures Valid()
      ensures WriteEffect(old(Stored()), Stored(), codec.compose(frontmatterBody, Some(nextCw), editorText), nextCw, ok, outcome)
      ensures view.cardModels == if outcome == Saved then PatchAt(old(view.cardModels), filePath, patch) else old(view.cardModels)
      ensures view.floatingStartPosByPath == if outcome == NothingToSave then old(view.floatingStartPosByPath) else nextMemory
      ensures Chain() == old(Chain()) && Timers() == old(Timers()) && Texts() == old(Texts()) && Flags() == old(Flags())
    {
      var updated := codec.compose(frontmatterBody, Some(nextCw), editorText);
      if updated == lastSavedContent {
        return NothingToSave;
      }
      view.floatingStartPosByPath := nextMemory;
      writes := writes + [updated];
      if !ok {
        return Failed;
      }
      cwDataBody := Some(nextCw);
      lastSavedContent := updated;
      view.PatchCardModel(filePath, patch);
      outcome := Saved;
    }

    /**
     * `onSelectColor`: the metadata with the new colour is written unless the
     * text would not change; on success the colour (upper-cased), the metadata
     * body, the baseline and the card's model follow.
     */
    method SelectColor(hex: string, ok: bool) returns (outcome: WriteOutcome)
      requires Valid()
      modifies this, view
      ensures Valid()
      ensures var nextCw := codec.upsertColor(old(cwDataBody), hex, filePath, old(view.floatingStartPosByPath));
              && WriteEffect(old(Stored()), Stored(), codec.compose(frontmatterBody, Some(nextCw), editorText), nextCw, ok, outcome)
              && view.cardModels == if outcome == Saved then PatchAt(old(view.cardModels), filePath, ColorPatch(nextCw, ToUpper(hex)))
                                    else old(view.cardModels)
      ensures currentColor == if outcome == Saved then Some(ToUpper(hex)) else old(currentColor)
      ensures view.floatingStartPosByPath == old(view.floatingStartPosByPath)
      ensures Chain() == old(Chain()) && Timers() == old(Timers()) && Texts() == old(Texts())
      ensures isPinned == old(isPinned) && isFloating == old(isFloating)
    {
      var memory := view.floatingStartPosByPath;
      var nextCwData := codec.upsertColor(cwDataBody, hex, filePath, memory);
      outcome := WriteMetadata(nextCwData, memory, ColorPatch(nextCwData, ToUpper(hex)), ok);
      if outcome == Saved {
        currentColor := Some(ToUpper(hex));
      }
    }

    /**
     * `onTogglePinned`: pinning is refused, with no write, while another card is
     * pinned; otherwise the flipped pin state is written unless the text would
     * not change, and on success the card's model follows. A list with at most
     * one pinned card keeps that property.
     */
    method TogglePinned(ok: bool) returns (outcome: WriteOutcome)
      requires Valid()
      modifies this, view
      ensures Valid()
      ensures outcome == Refused <==> !old(isPinned) && OtherPinned(old(view.cardModels), filePath)
      ensures outcome == Refused ==> Stored() == old(Stored()) && view.cardModels == old(view.cardModels)
      ensures outcome != Refused ==>
                var nextCw := codec.upsertPinned(old(cwDataBody), !old(isPinned), filePath, old(view.floatingStartPosByPath));
                && WriteEffect(old(Stored()), Stored(), codec.compose(frontmatterBody, Some(nextCw), editorText), nextCw, ok, outcome)
                && view.cardModels == if outcome == Saved then PatchAt(old(view.cardModels), filePath, PinPatch(nextCw, !old(isPinned)))
                                      else old(view.cardModels)
      ensures isPinned == if outcome == Saved then !old(isPinned) else old(isPinned)
      ensures old(AtMostOnePinned(view.cardModels) && UniquePaths(view.cardModels)) ==> AtMostOnePinned(view.cardModels)
      ensures view.floatingStartPosByPath == old(view.floatingStartPosByPath)
      ensures Chain() == old(Chain()) && Timers() == old(Timers()) && Texts() == old(Texts())
      ensures currentColor == old(currentColor) && isFloating == old(isFloating)
    {
      var nextPinned := !isPinned;
      if nextPinned && OtherPinned(view.cardModels, filePath) {
        return Refused;
      }
      var memory := view.floatingStartPosByPath;
      var nextCwData := codec.upsertPinned(cwDataBody, nextPinned, filePath, memory);
      ghost var before := view.cardModels;
      outcome := WriteMetadata(nextCwData, memory, PinPatch(nextCwData, nextPinned), ok);
      if outcome == Saved {
        isPinned := nextPinned;
        if AtMostOnePinned(before) && UniquePaths(before) {
          PinKeepsExclusive(before, filePath, nextPinned, PinPatch(nextCwData, nextPinned));
        }
      }
    }

    /**
     * The float button: the flipped floating state is written with the measured
     * geometry when the card starts floating, and a pinned card that starts
     * floating is unpinned in the same write. A write that goes ahead records
     * the on-screen geometry (or forgets it) first, whatever its outcome.
     */
    method ToggleFloating(measured: Geometry, ok: bool) returns (outcome: WriteOutcome)
      requires Valid()
      modifies this, view
      ensures Valid()
      ensures var nextFloating := !old(isFloating);
              var geometry := if nextFloating then Some(measured) else None;
              var unpin := nextFloating && old(isPinned);
              var nextCw := FloatingCwData(codec, old(cwDataBody), nextFloating, unpin, filePath, geometry,
                                           old(view.floatingStartPosByPath));
              && WriteEffect(old(Stored()), Stored(), codec.compose(frontmatterBody, Some(nextCw), editorText), nextCw, ok, outcome)
              && view.cardModels ==
                   if outcome == Saved
                   then PatchAt(old(view.cardModels), filePath, FloatPatch(nextCw, old(isPinned) && !unpin, nextFloating, geometry))
                   else old(view.cardModels)
      ensures view.floatingStartPosByPath ==
                if outcome == NothingToSave then old(view.floatingStartPosByPath)
                else if !old(isFloating) then old(view.floatingStartPosByPath)[filePath := measured]
                else old(view.floatingStartPosByPath) - {filePath}
      ensures isFloating == if outcome == Saved then !old(isFloating) else old(isFloating)
      ensures isPinned == if outcome == Saved then old(isPinned) && old(isFloating) else old(isPinned)
      ensures Chain() == old(Chain()) && Timers() == old(Timers()) && Texts() == old(Texts())
      ensures currentColor == old(currentColor)
    {
      var nextFloating := !isFloating;
      var floatingGeometry := if nextFloating then Some(measured) else None;
      var memory := view.floatingStartPosByPath;
      var shouldAutoUnpin := nextFloating && isPinned;
      var nextCwData := FloatingCwData(codec, cwDataBody, nextFloating, shouldAutoUnpin, filePath, floatingGeometry, memory);
      var nextMemory := if nextFloating then memory[filePath := measured] else memory - {filePath};
      var patch := FloatPatch(nextCwData, isPinned && !shouldAutoUnpin, nextFloating, floatingGeometry);
      outcome := WriteMetadata(nextCwData, nextMemory, patch, ok);
      if outcome == Saved {
        isFloating := nextFloating;
        if shouldAutoUnpin {
          isPinned := false;
        }
      }
    }
  }

  /**
   * The write a run of the save chain prepares: the tag editor's text
   * normalised, the metadata body updated with those tags and the images, and
   * the card's text composed around the body editor's text.
   */
  function PrepareWrite(codec: Codec, fm: Option<string>, cw: Option<string>, tagsText: string, images: seq<string>,
                        path: string, memory: GeometryMemory, body: string): PendingWrite
  {
    var tagsLine := codec.normalizeTagLine(tagsText);
    var cwData := codec.upsertContent(cw, tagsLine, images, path, memory);
    PendingWrite(codec.compose(fm, Some(cwData), body), cwData, tagsLine, body)
  }

  /** The saved baseline, the metadata body and the writes handed to the vault. */
  type StoredState = (string, Option<string>, seq<string>)

  /**
   * What a structural write of `updated`, with metadata body `cw`, does to the
   * stored state: nothing when it is the text last saved; otherwise it is handed
   * to the vault, and only on success does it become the baseline.
   */
  predicate WriteEffect(before: StoredState, after: StoredState, updated: string, cw: string, ok: bool, outcome: WriteOutcome)
  {
    if updated == before.0 then outcome == NothingToSave && after == before
    else if ok then outcome == Saved && after == (updated, Some(cw), before.2 + [updated])
    else outcome == Failed && after == (before.0, before.1, before.2 + [updated])
  }

  /**
   * The metadata body the float button writes: the floating state and geometry,
   * then, when the card was pinned and starts floating, the pin cleared.
   */
  function FloatingCwData(codec: Codec, cw: Option<string>, floating: bool, unpin: bool, path: string,
                          geometry: Option<Geometry>, memory: GeometryMemory): string
  {
    var floated := codec.upsertFloating(cw, floating, path, geometry, memory);
    if unpin then codec.upsertPinned(Some(floated), false, path, memory) else floated
  }

  /** The filter keeping every path but `x`. */
  function IsNot(x: string): string -> bool
  {
    (p: string) => p != x
  }

  /** `items.filter(p => p !== x)`. */
  function Without(items: seq<string>, x: string): (r: seq<string>)
    ensures r == Seqs.Filter(items, IsNot(x))
    ensures forall p :: p in r <==> p in items && p != x
    ensures |r| <= |items|
    ensures x in items ==> |r| < |items|
    ensures x !in items ==> r == items
    ensures Seqs.NoDups(items) ==> Seqs.NoDups(r)
  {
    if items == [] then []
    else
      assert items == [items[0]] + items[1..];
      Seqs.FilterCons(items[0], items[1..], IsNot(x));
      var rest := Without(items[1..], x);
      if items[0] == x then rest
      else
        assert Seqs.NoDups(items) ==> items[0] !in items[1..] && items[0] !in rest;
        [items[0]] + rest
  }

  /** Nothing removed means the list was kept whole. */
  lemma {:induction false} WithoutKeeps(items: seq<string>, x: string)
    requires |Without(items, x)| == |items|
    ensures Without(items, x) == items
  {
    if items != [] {
      WithoutKeeps(items[1..], x);
    }
  }
}
