/**
 * The `TryOnStudio` workflow controller of App.tsx as transitions on its state. `Snapshot` is
 * the component's state and each handler is a transition function on it; the class
 * `Studio.TryOnStudio` holds the same state in mutable fields and its methods are proved to
 * perform exactly these transitions.
 *
 * Every call to the generation service is split in two: a start transition that changes the
 * state as the handler does before its `await` and returns the request, and a finish
 * transition that takes how the call ended as an input.
 */
module Workflow {
  import opened Basics
  import opened Types
  import opened Outfit
  import opened SavedCollections
  import opened ImageHelpers

  const UploadFailed: string := "Failed to process the uploaded image."
  const NoUserImage: string := "No user image available to generate from."
  const NothingSelected: string := "Please select at least one clothing item."
  const UnknownError: string := "An unknown error occurred."

  /** The arguments of `generateMeasurements`. */
  datatype MeasureRequest = MeasureRequest(photo: UserImage, items: seq<ClothingItem>, height: Option<string>)

  /** The arguments of `generateOutfit`, for the final image and for the preview alike. */
  datatype OutfitRequest = OutfitRequest(photo: UserImage, items: seq<ClothingItem>)

  /** The state of `TryOnStudio`; `pendingPreview` is the debounce timer of the preview effect and what it will send. */
  datatype Snapshot = Snapshot(
    step: AppStep,
    userImage: Option<UserImage>,
    userHeight: Option<string>,
    generatedImage: Option<string>,
    isLoading: bool,
    error: Option<string>,
    clothingItems: seq<ClothingItem>,
    selectedOutfit: SelectedOutfit,
    savedLooks: seq<SavedLook>,
    savedMeasurements: seq<SavedMeasurement>,
    fitAnalysis: Option<FitAnalysis>,
    previewImage: Option<string>,
    isPreviewLoading: bool,
    pendingPreview: Option<OutfitRequest>)

  /** A start transition: the new state and the service request, if one is made. */
  datatype Started<R> = Started(state: Snapshot, request: Option<R>)

  /**
   * What holds in every state the workflow reaches: each slot holds a garment of its own
   * category, every step past capture has a photo, the customise and result steps have a
   * generated image, and a scheduled preview has garments to show.
   */
  predicate Consistent(s: Snapshot) {
    && WellSlotted(s.selectedOutfit)
    && (s.step != Capture ==> s.userImage.Some?)
    && (s.step == Customize || s.step == Result ==> s.generatedImage.Some?)
    && (s.pendingPreview.Some? ==> s.pendingPreview.value.items != [])
  }

  /** The state on mount; the saved lists are whatever was read back from storage. */
  function Initial(catalogue: seq<ClothingItem>, looks: seq<SavedLook>, measurements: seq<SavedMeasurement>): (s: Snapshot)
    ensures Consistent(s) && s.step == Capture && !HasSelection(s.selectedOutfit)
    ensures s.clothingItems == catalogue && s.savedLooks == looks && s.savedMeasurements == measurements
    ensures s.userImage.None? && s.error.None? && !s.isLoading && s.pendingPreview.None?
  {
    Snapshot(Capture, None, None, None, false, None, catalogue, EmptyOutfit, looks, measurements,
             None, None, false, None)
  }

  /** `handleImageCaptured`: the photo is kept and the height step follows. */
  function Captured(s: Snapshot, image: UserImage): (t: Snapshot)
    ensures t.step == Height && t.userImage == Some(image)
    ensures t.selectedOutfit == s.selectedOutfit && t.error == s.error
    ensures Consistent(s) ==> Consistent(t)
  {
    s.(userImage := Some(image), step := Height)
  }

  /** `handleImageUploaded` before its `await`: busy, error cleared. */
  function UploadStarted(s: Snapshot): (t: Snapshot)
    ensures t.isLoading && t.error.None? && t.step == s.step && t.userImage == s.userImage
    ensures Consistent(s) ==> Consistent(t)
  {
    s.(isLoading := true, error := None)
  }

  /**
   * `handleImageUploaded` after reading the file: a decoded photo is kept and the height step
   * follows; a failed read shows "Failed to process the uploaded image." and stays put.
   */
  function UploadFinished(s: Snapshot, uploaded: Option<UserImage>): (t: Snapshot)
    ensures !t.isLoading
    ensures uploaded.Some? ==> t.step == Height && t.userImage == uploaded && t.error == s.error
    ensures uploaded.None? ==> t.step == s.step && t.userImage == s.userImage && t.error == Some(UploadFailed)
    ensures Consistent(s) ==> Consistent(t)
  {
    match uploaded
    case Some(image) => s.(userImage := Some(image), step := Height, isLoading := false)
    case None => s.(error := Some(UploadFailed), isLoading := false)
  }

  /**
   * `handleHeightSubmitted`: the height is kept, the preview starts as the photo itself and the
   * selection step follows. The height form is shown only in the height step.
   */
  function HeightSubmitted(s: Snapshot, height: string): (t: Snapshot)
    requires s.step == Height
    ensures t.step == Select && t.userHeight == Some(height)
    ensures s.userImage.Some? ==> t.previewImage == Some(s.userImage.value.url)
    ensures Consistent(s) ==> Consistent(t)
  {
    var s1 := s.(userHeight := Some(height));
    var s2 := if s.userImage.Some? then s1.(previewImage := Some(s.userImage.value.url)) else s1;
    s2.(step := Select)
  }

  /** `handleSelectClothing`: the toggle of `Outfit.Toggle`, nothing else changes. */
  function ClothingSelected(s: Snapshot, item: ClothingItem): (t: Snapshot)
    ensures t == s.(selectedOutfit := Toggle(s.selectedOutfit, item))
    ensures IsSelected(t.selectedOutfit, item) <==> !IsSelected(s.selectedOutfit, item)
    ensures forall u :: u != item.category ==> t.selectedOutfit.Get(u) == s.selectedOutfit.Get(u)
    ensures Consistent(s) ==> Consistent(t)
  {
    s.(selectedOutfit := Toggle(s.selectedOutfit, item))
  }

  /**
   * `handleProceedToMeasure(outfit)` before its `await`. Without a photo, or with every slot
   * empty, only the error changes and no request is made. Otherwise the measure step starts:
   * busy, error cleared, and the garments of the outfit in slot order go to the service with
   * the photo and the height.
   */
  function MeasureStarted(s: Snapshot, outfit: SelectedOutfit): (r: Started<MeasureRequest>)
    ensures s.userImage.None? ==> r == Started(s.(error := Some(NoUserImage)), None)
    ensures s.userImage.Some? && !HasSelection(outfit) ==> r == Started(s.(error := Some(NothingSelected)), None)
    ensures r.request.Some? <==> s.userImage.Some? && HasSelection(outfit)
    ensures r.request.Some? ==>
      && r.state == s.(step := Measure, isLoading := true, error := None)
      && r.request.value == MeasureRequest(s.userImage.value, SelectedItems(outfit), s.userHeight)
      && 1 <= |r.request.value.items| <= 4
    ensures Consistent(s) ==> Consistent(r.state)
  {
    if s.userImage.None? then Started(s.(error := Some(NoUserImage)), None)
    else
      var items := SelectedItems(outfit);
      if |items| == 0 then Started(s.(error := Some(NothingSelected)), None)
      else Started(s.(step := Measure, isLoading := true, error := None),
                   Some(MeasureRequest(s.userImage.value, items, s.userHeight)))
  }

  /**
   * `handleProceedToMeasure` after its `await`: the analysis is kept, or the error is shown
   * and the selection step comes back with the outfit as it was. Either way the studio is
   * idle again.
   */
  function MeasureFinished(s: Snapshot, outcome: CallOutcome<FitAnalysis>): (t: Snapshot)
    requires s.step == Measure
    ensures !t.isLoading && t.selectedOutfit == s.selectedOutfit && t.userImage == s.userImage
    ensures outcome.Resolved? ==> t.step == Measure && t.fitAnalysis == Some(outcome.value) && t.error == s.error
    ensures outcome.Rejected? ==>
      t.step == Select && t.fitAnalysis == s.fitAnalysis && t.error == Some(ErrorText(outcome.message, UnknownError))
    ensures Consistent(s) ==> Consistent(t)
  {
    match outcome
    case Resolved(analysis) => s.(fitAnalysis := Some(analysis), isLoading := false)
    case Rejected(message) => s.(error := Some(ErrorText(message, UnknownError)), step := Select, isLoading := false)
  }

  /**
   * `handleProceedToGenerate` before its `await`: nothing happens without a photo; otherwise
   * the generate step starts, busy and with the error cleared, and the selected garments go to
   * the service. Unlike the measure step there is no check for an empty outfit here.
   */
  function GenerateStarted(s: Snapshot): (r: Started<OutfitRequest>)
    ensures s.userImage.None? ==> r == Started(s, None)
    ensures s.userImage.Some? ==>
      && r.state == s.(step := Generate, isLoading := true, error := None)
      && r.request == Some(OutfitRequest(s.userImage.value, SelectedItems(s.selectedOutfit)))
    ensures Consistent(s) ==> Consistent(r.state)
  {
    match s.userImage
    case None => Started(s, None)
    case Some(image) =>
      Started(s.(step := Generate, isLoading := true, error := None),
              Some(OutfitRequest(image, SelectedItems(s.selectedOutfit))))
  }

  /**
   * `handleProceedToGenerate` after its `await`: the generated image is kept and the customise
   * step follows, or the error is shown and the selection step comes back.
   */
  function GenerateFinished(s: Snapshot, outcome: CallOutcome<string>): (t: Snapshot)
    requires s.step == Generate
    ensures !t.isLoading && t.selectedOutfit == s.selectedOutfit
    ensures outcome.Resolved? ==> t.step == Customize && t.generatedImage == Some(outcome.value) && t.error == s.error
    ensures outcome.Rejected? ==>
      t.step == Select && t.generatedImage == s.generatedImage && t.error == Some(ErrorText(outcome.message, UnknownError))
    ensures Consistent(s) ==> Consistent(t)
  {
    match outcome
    case Resolved(image) => s.(generatedImage := Some(image), step := Customize, isLoading := false)
    case Rejected(message) => s.(error := Some(ErrorText(message, UnknownError)), step := Select, isLoading := false)
  }

  /** `handleFinalize`: the image chosen in the customise step becomes the result. */
  function Finalized(s: Snapshot, finalImage: string): (t: Snapshot)
    requires s.step == Customize
    ensures t.step == Result && t.generatedImage == Some(finalImage)
    ensures Consistent(s) ==> Consistent(t)
  {
    s.(generatedImage := Some(finalImage), step := Result)
  }

  /**
   * `handleStartOver`: back to the capture step with no photo, height, outfit, analysis,
   * generated image, preview or error, and idle. The catalogue and both saved lists survive.
   */
  function StartedOver(s: Snapshot): (t: Snapshot)
    ensures t.step == Capture && t.selectedOutfit == EmptyOutfit && !HasSelection(t.selectedOutfit)
    ensures t.userImage.None? && t.generatedImage.None? && t.fitAnalysis.None? && t.userHeight.None?
    ensures t.previewImage.None? && t.error.None? && !t.isLoading && !t.isPreviewLoading
    ensures t.clothingItems == s.clothingItems
    ensures t.savedLooks == s.savedLooks && t.savedMeasurements == s.savedMeasurements
    ensures Consistent(s) ==> Consistent(t)
  {
    s.(userImage := None, generatedImage := None, error := None, isLoading := false, step := Capture,
       selectedOutfit := EmptyOutfit, fitAnalysis := None, userHeight := None, previewImage := None,
       isPreviewLoading := false)
  }

  /** `handleItemCreated`: the new garment goes to the front of the catalogue and is toggled. */
  function ItemCreated(s: Snapshot, item: ClothingItem): (t: Snapshot)
    ensures t.clothingItems == [item] + s.clothingItems
    ensures t.selectedOutfit == Toggle(s.selectedOutfit, item)
    ensures t.step == s.step && t.savedLooks == s.savedLooks
    ensures Consistent(s) ==> Consistent(t)
  {
    ClothingSelected(s.(clothingItems := [item] + s.clothingItems), item)
  }

  /**
   * `handleSaveLook(id)`: without a generated image (an empty one counts as none) or a photo
   * nothing changes; otherwise one look carrying both and the current outfit goes to the front
   * of the saved looks.
   */
  function LookSaved(s: Snapshot, id: int): (t: Snapshot)
    ensures !Present(s.generatedImage) || s.userImage.None? ==> t == s
    ensures Present(s.generatedImage) && s.userImage.Some? ==>
      t == s.(savedLooks := [SavedLook(id, s.generatedImage.value, s.userImage.value, s.selectedOutfit)] + s.savedLooks)
    ensures Consistent(s) ==> Consistent(t)
  {
    if !Present(s.generatedImage) || s.userImage.None? then s
    else s.(savedLooks := [SavedLook(id, s.generatedImage.value, s.userImage.value, s.selectedOutfit)] + s.savedLooks)
  }

  /** `handleDeleteLook(id)`: every look with that id goes, the rest keep their order. */
  function LookDeleted(s: Snapshot, id: int): (t: Snapshot)
    ensures t == s.(savedLooks := t.savedLooks)
    ensures forall l :: l in t.savedLooks <==> l in s.savedLooks && l.id != id
    ensures Consistent(s) ==> Consistent(t)
  {
    s.(savedLooks := WithoutId(s.savedLooks, id, LookId))
  }

  /** `handleSaveMeasurements(id)`: like saving a look, with the analysis in place of the generated image. */
  function MeasurementsSaved(s: Snapshot, id: int): (t: Snapshot)
    ensures s.fitAnalysis.None? || s.userImage.None? ==> t == s
    ensures s.fitAnalysis.Some? && s.userImage.Some? ==>
      t == s.(savedMeasurements := [SavedMeasurement(id, s.fitAnalysis.value, s.userImage.value, s.selectedOutfit)] + s.savedMeasurements)
    ensures Consistent(s) ==> Consistent(t)
  {
    if s.fitAnalysis.None? || s.userImage.None? then s
    else s.(savedMeasurements := [SavedMeasurement(id, s.fitAnalysis.value, s.userImage.value, s.selectedOutfit)] + s.savedMeasurements)
  }

  /** `handleDeleteMeasurement(id)`: every entry with that id goes, the rest keep their order. */
  function MeasurementDeleted(s: Snapshot, id: int): (t: Snapshot)
    ensures t == s.(savedMeasurements := t.savedMeasurements)
    ensures forall m :: m in t.savedMeasurements <==> m in s.savedMeasurements && m.id != id
    ensures Consistent(s) ==> Consistent(t)
  {
    s.(savedMeasurements := WithoutId(s.savedMeasurements, id, MeasurementId))
  }

  /** The back link of the selection screen returns to the height step. */
  function BackToHeight(s: Snapshot): (t: Snapshot)
    requires s.step == Select
    ensures t == s.(step := Height)
    ensures Consistent(s) ==> Consistent(t)
  {
    s.(step := Height)
  }

  /** The back links of the measurements and customise screens return to the selection step. */
  function BackToSelect(s: Snapshot): (t: Snapshot)
    requires s.step == Measure || s.step == Customize
    ensures t == s.(step := Select)
    ensures Consistent(s) ==> Consistent(t)
  {
    s.(step := Select)
  }

  /** The close button of the error banner. */
  function ErrorDismissed(s: Snapshot): (t: Snapshot)
    ensures t.error.None? && t == s.(error := None)
    ensures Consistent(s) ==> Consistent(t)
  {
    s.(error := None)
  }

  /**
   * The preview effect, run after a render that changed the step, the photo or the outfit:
   * the timer of the previous run is cancelled; then, only in the selection step with a photo,
   * an empty outfit shows the photo itself at once and anything else schedules a preview of
   * the selected garments.
   */
  function PreviewSynced(s: Snapshot): (t: Snapshot)
    ensures s.step != Select || s.userImage.None? ==> t == s.(pendingPreview := None)
    ensures s.step == Select && s.userImage.Some? && !HasSelection(s.selectedOutfit) ==>
      t == s.(pendingPreview := None, previewImage := Some(s.userImage.value.url), isPreviewLoading := false)
    ensures s.step == Select && s.userImage.Some? && HasSelection(s.selectedOutfit) ==>
      t == s.(pendingPreview := Some(OutfitRequest(s.userImage.value, SelectedItems(s.selectedOutfit))))
    ensures Consistent(s) ==> Consistent(t)
  {
    var cleaned := s.(pendingPreview := None);
    if s.step != Select || s.userImage.None? then cleaned
    else
      var items := SelectedItems(s.selectedOutfit);
      if |items| == 0 then cleaned.(previewImage := Some(s.userImage.value.url), isPreviewLoading := false)
      else cleaned.(pendingPreview := Some(OutfitRequest(s.userImage.value, items)))
  }

  /** The debounce timer fires: the preview turns busy and its request goes to the service. */
  function PreviewTimerFired(s: Snapshot): (r: Started<OutfitRequest>)
    ensures s.pendingPreview.None? ==> r == Started(s, None)
    ensures s.pendingPreview.Some? ==>
      r == Started(s.(pendingPreview := None, isPreviewLoading := true), s.pendingPreview)
    ensures Consistent(s) ==> Consistent(r.state)
  {
    match s.pendingPreview
    case None => Started(s, None)
    case Some(request) => Started(s.(pendingPreview := None, isPreviewLoading := true), Some(request))
  }

  /**
   * A preview call ends: its image is shown as a PNG data URL, or on failure the photo it was
   * made for. Whether the call is still the latest one is not checked.
   */
  function PreviewResolved(s: Snapshot, request: OutfitRequest, outcome: CallOutcome<string>): (t: Snapshot)
    ensures !t.isPreviewLoading
    ensures outcome.Resolved? ==> t == s.(previewImage := Some(Base64Url("image/png", outcome.value)), isPreviewLoading := false)
    ensures outcome.Rejected? ==> t == s.(previewImage := Some(request.photo.url), isPreviewLoading := false)
    ensures Consistent(s) ==> Consistent(t)
  {
    match outcome
    case Resolved(image) => s.(previewImage := Some(Base64Url("image/png", image)), isPreviewLoading := false)
    case Rejected(_) => s.(previewImage := Some(request.photo.url), isPreviewLoading := false)
  }

  /** One thing the user does or one service call that ends. */
  datatype Event =
    | CaptureImage(image: UserImage)
    | BeginUpload
    | FinishUpload(uploaded: Option<UserImage>)
    | SubmitHeight(height: string)
    | SelectItem(item: ClothingItem)
    | ProceedToMeasure
    | MeasureReturned(analysis: CallOutcome<FitAnalysis>)
    | ProceedToGenerate
    | GenerateReturned(generated: CallOutcome<string>)
    | FinalizeLook(finalImage: string)
    | StartOver
    | CreateItem(created: ClothingItem)
    | SaveLook(lookId: int)
    | DeleteLook(lookId: int)
    | SaveMeasurements(measurementId: int)
    | DeleteMeasurement(measurementId: int)
    | GoBackToHeight
    | GoBackToSelect
    | DismissError
    | SyncPreview
    | PreviewTimer
    | PreviewReturned(request: OutfitRequest, preview: CallOutcome<string>)

  /** The view `renderContent` puts on screen; it decides which controls the user can reach. */
  datatype Screen = Camera | HeightForm | Selection | Measuring | Measurements | Generating | Customizer | Results

  /**
   * `renderContent`: a pending measure or generate call shows its loading view; otherwise each
   * step shows its view when the data it needs is there, and the camera when it is not.
   */
  function ScreenOf(s: Snapshot): (screen: Screen)
    ensures screen == Generating <==> s.step == Generate
    ensures screen == Measuring <==> s.isLoading && s.step == Measure
    ensures screen == HeightForm ==> s.step == Height && s.userImage.Some?
    ensures screen == Selection ==> s.step == Select && s.userImage.Some?
    ensures screen == Measurements ==> s.step == Measure && !s.isLoading && s.fitAnalysis.Some? && s.userImage.Some?
    ensures screen == Customizer ==> s.step == Customize && Present(s.generatedImage)
    ensures screen == Results ==> s.step == Result && s.userImage.Some? && Present(s.generatedImage)
  {
    if s.isLoading && s.step == Generate then Generating
    else if s.isLoading && s.step == Measure then Measuring
    else
      match s.step
      case Capture => Camera
      case Height => if s.userImage.Some? then HeightForm else Camera
      case Select => if s.userImage.Some? then Selection else Camera
      case Measure => if s.fitAnalysis.Some? && s.userImage.Some? then Measurements else Camera
      case Generate => Generating
      case Customize => if Present(s.generatedImage) then Customizer else Camera
      case Result => if s.userImage.Some? && Present(s.generatedImage) then Results else Camera
  }

  /**
   * The state after one event. A control the current screen does not show, or shows disabled
   * (the measure button with nothing selected), leaves the state as it is, and so does a reply
   * to a measure or generate call that is not pending. The measure button sends the outfit on
   * screen. The modals, the upload and the preview are not tied to a screen.
   */
  function Apply(s: Snapshot, e: Event): Snapshot {
    var screen := ScreenOf(s);
    match e
    case CaptureImage(image) => if screen == Camera then Captured(s, image) else s
    case BeginUpload => if screen == Camera then UploadStarted(s) else s
    case FinishUpload(uploaded) => UploadFinished(s, uploaded)
    case SubmitHeight(height) => if screen == HeightForm then HeightSubmitted(s, height) else s
    case SelectItem(item) => if screen == Selection then ClothingSelected(s, item) else s
    case ProceedToMeasure =>
      if screen == Selection && HasSelection(s.selectedOutfit) then MeasureStarted(s, s.selectedOutfit).state else s
    case MeasureReturned(analysis) => if screen == Measuring then MeasureFinished(s, analysis) else s
    case ProceedToGenerate => if screen == Measurements then GenerateStarted(s).state else s
    case GenerateReturned(generated) => if screen == Generating && s.isLoading then GenerateFinished(s, generated) else s
    case FinalizeLook(finalImage) => if screen == Customizer then Finalized(s, finalImage) else s
    case StartOver => if screen == HeightForm || screen == Results then StartedOver(s) else s
    case CreateItem(item) => ItemCreated(s, item)
    case SaveLook(id) => if screen == Results then LookSaved(s, id) else s
    case DeleteLook(id) => LookDeleted(s, id)
    case SaveMeasurements(id) => if screen == Measurements then MeasurementsSaved(s, id) else s
    case DeleteMeasurement(id) => MeasurementDeleted(s, id)
    case GoBackToHeight => if screen == Selection then BackToHeight(s) else s
    case GoBackToSelect => if screen == Measurements || screen == Customizer then BackToSelect(s) else s
    case DismissError => if !s.isLoading then ErrorDismissed(s) else s
    case SyncPreview => PreviewSynced(s)
    case PreviewTimer => PreviewTimerFired(s).state
    case PreviewReturned(request, preview) => PreviewResolved(s, request, preview)
  }

  /** The state after a sequence of events, in order. */
  function Run(s: Snapshot, events: seq<Event>): Snapshot
    decreases |events|
  {
    if events == [] then s else Run(Apply(s, events[0]), events[1..])
  }

  /** Every event keeps the state consistent. */
  lemma ApplyConsistent(s: Snapshot, e: Event)
    requires Consistent(s)
    ensures Consistent(Apply(s, e))
  {
  }

  /** Any sequence of events keeps the state consistent. */
  lemma {:induction false} RunConsistent(s: Snapshot, events: seq<Event>)
    requires Consistent(s)
    ensures Consistent(Run(s, events))
    decreases |events|
  {
    if events != [] {
      ApplyConsistent(s, events[0]);
      RunConsistent(Apply(s, events[0]), events[1..]);
    }
  }

  /** Every state reachable from mount is consistent: past capture there is always a photo, and so on. */
  lemma Reachable(catalogue: seq<ClothingItem>, looks: seq<SavedLook>, measurements: seq<SavedMeasurement>, events: seq<Event>)
    ensures Consistent(Run(Initial(catalogue, looks, measurements), events))
  {
    RunConsistent(Initial(catalogue, looks, measurements), events);
  }

  /** The event changes the saved looks only when it saves or deletes one. */
  predicate TouchesLooks(e: Event) {
    e.SaveLook? || e.DeleteLook?
  }

  /** One event other than saving or deleting a look leaves the saved looks alone. */
  lemma ApplyKeepsLooks(s: Snapshot, e: Event)
    requires !TouchesLooks(e)
    ensures Apply(s, e).savedLooks == s.savedLooks
  {
  }

  /** Events other than saving and deleting looks leave the saved looks alone, start-over included. */
  lemma {:induction false} RunKeepsLooks(s: Snapshot, events: seq<Event>)
    requires forall k :: 0 <= k < |events| ==> !TouchesLooks(events[k])
    ensures Run(s, events).savedLooks == s.savedLooks
    decreases |events|
  {
    if events != [] {
      ApplyKeepsLooks(s, events[0]);
      RunKeepsLooks(Apply(s, events[0]), events[1..]);
    }
  }

  /** The event is a control of one of the screens `renderContent` shows. */
  predicate OnScreen(e: Event) {
    || e.CaptureImage? || e.BeginUpload? || e.SubmitHeight? || e.SelectItem? || e.ProceedToMeasure?
    || e.ProceedToGenerate? || e.FinalizeLook? || e.StartOver? || e.SaveLook? || e.SaveMeasurements?
    || e.GoBackToHeight? || e.GoBackToSelect?
  }

  /**
   * While a measure or generate call is pending only its loading view is on screen, so no
   * screen control changes anything: the user cannot leave or restart the step under the call.
   */
  lemma PendingCallLocksScreen(s: Snapshot, e: Event)
    requires s.isLoading && (s.step == Measure || s.step == Generate) && OnScreen(e)
    ensures Apply(s, e) == s
  {
  }

  /** Toggling the same garment twice gives the outfit back when its slot was empty or held that garment. */
  lemma SelectTwice(s: Snapshot, item: ClothingItem)
    requires s.selectedOutfit.Get(item.category) == None || s.selectedOutfit.Get(item.category) == Some(item)
    ensures ClothingSelected(ClothingSelected(s, item), item) == s
  {
    ToggleTwice(s.selectedOutfit, item);
  }

  /** Saving a look under a fresh id and deleting that id gives the saved looks back. */
  lemma SaveThenDeleteLook(s: Snapshot, id: int)
    requires IdAbsent(s.savedLooks, id, LookId)
    ensures LookDeleted(LookSaved(s, id), id) == s
  {
    if Present(s.generatedImage) && s.userImage.Some? {
      var look := SavedLook(id, s.generatedImage.value, s.userImage.value, s.selectedOutfit);
      SaveThenDelete(look, s.savedLooks, LookId);
    } else {
      WithoutAbsentId(s.savedLooks, id, LookId);
    }
  }

  /** Saving measurements under a fresh id and deleting that id gives the saved measurements back. */
  lemma SaveThenDeleteMeasurements(s: Snapshot, id: int)
    requires IdAbsent(s.savedMeasurements, id, MeasurementId)
    ensures MeasurementDeleted(MeasurementsSaved(s, id), id) == s
  {
    if s.fitAnalysis.Some? && s.userImage.Some? {
      var entry := SavedMeasurement(id, s.fitAnalysis.value, s.userImage.value, s.selectedOutfit);
      SaveThenDelete(entry, s.savedMeasurements, MeasurementId);
    } else {
      WithoutAbsentId(s.savedMeasurements, id, MeasurementId);
    }
  }

  /** Running a non-empty sequence of events is running its first event, then the rest. */
  lemma RunFirst(s: Snapshot, e: Event, rest: seq<Event>)
    ensures Run(s, [e] + rest) == Run(Apply(s, e), rest)
  {
    assert ([e] + rest)[1..] == rest;
  }

  /** Running one sequence of events and then another is running them joined. */
  lemma {:induction false} RunAppend(s: Snapshot, a: seq<Event>, b: seq<Event>)
    ensures Run(s, a + b) == Run(Run(s, a), b)
    decreases |a|
  {
    if a == [] {
      assert a + b == b;
    } else {
      assert (a + b)[0] == a[0] && (a + b)[1..] == a[1..] + b;
      RunAppend(Apply(s, a[0]), a[1..], b);
    }
  }

  /**
   * Proceeding to measure with a photo and a non-empty outfit, when the service rejects:
   * back on the selection step, idle, the error shown, the outfit and any earlier analysis kept.
   */
  lemma MeasureRejected(s: Snapshot, message: Option<string>)
    requires s.userImage.Some? && HasSelection(s.selectedOutfit)
    ensures MeasureStarted(s, s.selectedOutfit).state.step == Measure
    ensures var t := MeasureFinished(MeasureStarted(s, s.selectedOutfit).state, Rejected(message));
      && t.step == Select && !t.isLoading && t.error == Some(ErrorText(message, UnknownError))
      && t.selectedOutfit == s.selectedOutfit && t.fitAnalysis == s.fitAnalysis && t.userImage == s.userImage
  {
  }

  /**
   * The whole journey with every call succeeding: photo, height, one garment, measurements,
   * generation, the finalised image and a saved look. The studio ends on the result step,
   * idle and without an error, with exactly one saved look that holds the final image, the
   * photo and the one-garment outfit.
   */
  lemma HappyPath(catalogue: seq<ClothingItem>, photo: UserImage, height: string, item: ClothingItem,
                  analysis: FitAnalysis, image: string, finalImage: string, id: int)
    requires image != [] && finalImage != []
    ensures var s := Run(Initial(catalogue, [], []),
                         [CaptureImage(photo), SubmitHeight(height), SelectItem(item), ProceedToMeasure,
                          MeasureReturned(Resolved(analysis)), ProceedToGenerate, GenerateReturned(Resolved(image)),
                          FinalizeLook(finalImage), SaveLook(id)]);
      && s.step == Result && s.generatedImage == Some(finalImage) && s.error.None? && !s.isLoading
      && s.fitAnalysis == Some(analysis) && s.userHeight == Some(height)
      && s.savedLooks == [SavedLook(id, finalImage, photo, EmptyOutfit.With(item.category, Some(item)))]
  {
    var outfit := EmptyOutfit.With(item.category, Some(item));
    var s3 := Run(Initial(catalogue, [], []), [CaptureImage(photo), SubmitHeight(height), SelectItem(item)]);
    ToSelection(catalogue, photo, height, item);
    var s7 := Run(s3, [ProceedToMeasure, MeasureReturned(Resolved(analysis)), ProceedToGenerate, GenerateReturned(Resolved(image))]);
    MeasureAndGenerate(s3, analysis, image);
    FinalizeAndSave(s7, finalImage, id);
    RunAppend(s3, [ProceedToMeasure, MeasureReturned(Resolved(analysis)), ProceedToGenerate, GenerateReturned(Resolved(image))],
              [FinalizeLook(finalImage), SaveLook(id)]);
    RunAppend(Initial(catalogue, [], []), [CaptureImage(photo), SubmitHeight(height), SelectItem(item)],
              [ProceedToMeasure, MeasureReturned(Resolved(analysis)), ProceedToGenerate, GenerateReturned(Resolved(image))]
              + [FinalizeLook(finalImage), SaveLook(id)]);
    assert [CaptureImage(photo), SubmitHeight(height), SelectItem(item)]
           + ([ProceedToMeasure, MeasureReturned(Resolved(analysis)), ProceedToGenerate, GenerateReturned(Resolved(image))]
              + [FinalizeLook(finalImage), SaveLook(id)])
        == [CaptureImage(photo), SubmitHeight(height), SelectItem(item), ProceedToMeasure,
            MeasureReturned(Resolved(analysis)), ProceedToGenerate, GenerateReturned(Resolved(image)),
            FinalizeLook(finalImage), SaveLook(id)];
  }

  /** From mount to the selection step with one garment chosen. */
  lemma ToSelection(catalogue: seq<ClothingItem>, photo: UserImage, height: string, item: ClothingItem)
    ensures var s := Run(Initial(catalogue, [], []), [CaptureImage(photo), SubmitHeight(height), SelectItem(item)]);
      && s.step == Select && s.userImage == Some(photo) && s.userHeight == Some(height)
      && s.selectedOutfit == EmptyOutfit.With(item.category, Some(item)) && HasSelection(s.selectedOutfit)
      && s.savedLooks == [] && s.error.None? && !s.isLoading
  {
    var outfit := EmptyOutfit.With(item.category, Some(item));
    var s0 := Initial(catalogue, [], []);
    var s1 := Captured(s0, photo);
    var s2 := HeightSubmitted(s1, height);
    var s3 := ClothingSelected(s2, item);
    OutfitExtensional(s3.selectedOutfit, outfit);
    assert outfit.Get(item.category).Some?;
    RunFirst(s2, SelectItem(item), []);
    RunFirst(s1, SubmitHeight(height), [SelectItem(item)]);
    RunFirst(s0, CaptureImage(photo), [SubmitHeight(height), SelectItem(item)]);
  }

  /** Measuring from the selection screen with a non-empty outfit, the call succeeding, shows the analysis. */
  lemma MeasureResolved(s: Snapshot, analysis: FitAnalysis)
    requires s.step == Select && s.userImage.Some? && HasSelection(s.selectedOutfit)
    ensures var t := Run(s, [ProceedToMeasure, MeasureReturned(Resolved(analysis))]);
      t == s.(step := Measure, fitAnalysis := Some(analysis), isLoading := false, error := None)
  {
    var s1 := s.(step := Measure, isLoading := true, error := None);
    assert Apply(s, ProceedToMeasure) == s1;
    var s2 := s.(step := Measure, fitAnalysis := Some(analysis), isLoading := false, error := None);
    assert Apply(s1, MeasureReturned(Resolved(analysis))) == s2;
    assert Run(s2, []) == s2;
    RunFirst(s1, MeasureReturned(Resolved(analysis)), []);
    RunFirst(s, ProceedToMeasure, [MeasureReturned(Resolved(analysis))]);
  }

  /** Generating from the measurements screen, the call succeeding, moves to the customise step with the new image. */
  lemma GenerateResolved(s: Snapshot, image: string)
    requires s.step == Measure && !s.isLoading && s.fitAnalysis.Some? && s.userImage.Some?
    ensures var t := Run(s, [ProceedToGenerate, GenerateReturned(Resolved(image))]);
      t == s.(step := Customize, generatedImage := Some(image), isLoading := false, error := None)
  {
    var s1 := s.(step := Generate, isLoading := true, error := None);
    assert Apply(s, ProceedToGenerate) == s1;
    var s2 := s.(step := Customize, generatedImage := Some(image), isLoading := false, error := None);
    assert Apply(s1, GenerateReturned(Resolved(image))) == s2;
    assert Run(s2, []) == s2;
    RunFirst(s1, GenerateReturned(Resolved(image)), []);
    RunFirst(s, ProceedToGenerate, [GenerateReturned(Resolved(image))]);
  }

  /** Measuring and generating with both calls succeeding ends on the customise step with the new image. */
  lemma MeasureAndGenerate(s: Snapshot, analysis: FitAnalysis, image: string)
    requires s.step == Select && s.userImage.Some? && HasSelection(s.selectedOutfit)
    ensures var t := Run(s, [ProceedToMeasure, MeasureReturned(Resolved(analysis)), ProceedToGenerate, GenerateReturned(Resolved(image))]);
      t == s.(step := Customize, generatedImage := Some(image), fitAnalysis := Some(analysis), isLoading := false, error := None)
  {
    var a := [ProceedToMeasure, MeasureReturned(Resolved(analysis))];
    var b := [ProceedToGenerate, GenerateReturned(Resolved(image))];
    MeasureResolved(s, analysis);
    GenerateResolved(Run(s, a), image);
    RunAppend(s, a, b);
    assert a + b == [ProceedToMeasure, MeasureReturned(Resolved(analysis)), ProceedToGenerate, GenerateReturned(Resolved(image))];
  }

  /** Finalising a non-empty image on the customise screen and saving puts one look in front of the saved ones. */
  lemma FinalizeAndSave(s: Snapshot, finalImage: string, id: int)
    requires s.step == Customize && Present(s.generatedImage) && s.userImage.Some? && finalImage != []
    ensures var t := Run(s, [FinalizeLook(finalImage), SaveLook(id)]);
      && t.step == Result && t.generatedImage == Some(finalImage)
      && t.savedLooks == [SavedLook(id, finalImage, s.userImage.value, s.selectedOutfit)] + s.savedLooks
      && t == s.(step := Result, generatedImage := Some(finalImage), savedLooks := t.savedLooks)
  {
    var s1 := Finalized(s, finalImage);
    RunFirst(s1, SaveLook(id), []);
    RunFirst(s, FinalizeLook(finalImage), [SaveLook(id)]);
  }
}
