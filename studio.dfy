/**
 * The `TryOnStudio` component of App.tsx as an object: its `useState` hooks and the preview
 * debounce ref are fields, and each handler is a method that updates them step by step as
 * the handler's setters do. Every method is proved to perform the corresponding transition
 * of `Workflow`, where the workflow's properties are proved.
 */
module Studio {
  import opened Basics
  import opened Types
  import opened Outfit
  import opened SavedCollections
  import opened ImageHelpers
  import opened Workflow

  /** The lists the studio keeps across start-overs: the garment catalogue and the saved entries. */
  datatype Collections = Collections(
    clothingItems: seq<ClothingItem>, savedLooks: seq<SavedLook>, savedMeasurements: seq<SavedMeasurement>)

  /**
   * The live preview: `previewImage`, `isPreviewLoading`, and the request of the debounce timer
   * held in `debounceTimeout.current` while it has not fired.
   */
  datatype Preview = Preview(image: Option<string>, isLoading: bool, pending: Option<OutfitRequest>)

  class TryOnStudio {
    var step: AppStep
    var userImage: Option<UserImage>
    var userHeight: Option<string>
    var generatedImage: Option<string>
    var isLoading: bool
    var error: Option<string>
    var selectedOutfit: SelectedOutfit
    var fitAnalysis: Option<FitAnalysis>
    var collections: Collections
    var preview: Preview

    /** The fields as one value. */
    function State(): Snapshot
      reads this
    {
      Snapshot(step, userImage, userHeight, generatedImage, isLoading, error, collections.clothingItems,
               selectedOutfit, collections.savedLooks, collections.savedMeasurements, fitAnalysis,
               preview.image, preview.isLoading, preview.pending)
    }

    predicate Valid()
      reads this
    {
      Consistent(State())
    }

    /** Mounting: the catalogue and the lists read back from storage are given. */
    constructor(catalogue: seq<ClothingItem>, looks: seq<SavedLook>, measurements: seq<SavedMeasurement>)
      ensures State() == Initial(catalogue, looks, measurements)
      ensures Valid()
    {
      step := Capture;
      userImage := None;
      userHeight := None;
      generatedImage := None;
      isLoading := false;
      error := None;
      selectedOutfit := EmptyOutfit;
      fitAnalysis := None;
      collections := Collections(catalogue, looks, measurements);
      preview := Preview(None, false, None);
    }

    method HandleImageCaptured(image: UserImage)
      requires Valid()
      modifies this
      ensures State() == Captured(old(State()), image)
      ensures Valid()
    {
      userImage := Some(image);
      step := Height;
    }

    method BeginImageUpload()
      requires Valid()
      modifies this
      ensures State() == UploadStarted(old(State()))
      ensures Valid()
    {
      isLoading := true;
      error := None;
    }

    /** `uploaded` is the decoded file with its object URL, or `None` when reading it failed. */
    method FinishImageUpload(uploaded: Option<UserImage>)
      requires Valid()
      modifies this
      ensures State() == UploadFinished(old(State()), uploaded)
      ensures Valid()
    {
      match uploaded {
        case Some(image) =>
          userImage := Some(image);
          step := Height;
        case None =>
          error := Some(UploadFailed);
      }
      isLoading := false;
    }

    method HandleHeightSubmitted(height: string)
      requires Valid() && step == Height
      modifies this
      ensures State() == HeightSubmitted(old(State()), height)
      ensures Valid()
    {
      userHeight := Some(height);
      if userImage.Some? {
        preview := preview.(image := Some(userImage.value.url));
      }
      step := Select;
    }

    method HandleSelectClothing(item: ClothingItem)
      requires Valid()
      modifies this
      ensures State() == ClothingSelected(old(State()), item)
      ensures Valid()
    {
      selectedOutfit := Toggle(selectedOutfit, item);
    }

    method BeginProceedToMeasure(outfit: SelectedOutfit) returns (request: Option<MeasureRequest>)
      requires Valid()
      modifies this
      ensures Valid()
      ensures State() == MeasureStarted(old(State()), outfit).state
      ensures request == MeasureStarted(old(State()), outfit).request
    {
      ghost var before := State();
      assert Consistent(MeasureStarted(before, outfit).state);
      if userImage.None? {
        error := Some(NoUserImage);
        return None;
      }
      var items := SelectedItems(outfit);
      if |items| == 0 {
        error := Some(NothingSelected);
        return None;
      }
      step := Measure;
      isLoading := true;
      error := None;
      request := Some(MeasureRequest(userImage.value, items, userHeight));
    }

    method FinishProceedToMeasure(outcome: CallOutcome<FitAnalysis>)
      requires Valid() && step == Measure
      modifies this
      ensures State() == MeasureFinished(old(State()), outcome)
      ensures Valid()
    {
      match outcome {
        case Resolved(analysis) =>
          fitAnalysis := Some(analysis);
        case Rejected(message) =>
          error := Some(ErrorText(message, UnknownError));
          step := Select;
      }
      isLoading := false;
    }

    method BeginProceedToGenerate() returns (request: Option<OutfitRequest>)
      requires Valid()
      modifies this
      ensures Valid()
      ensures State() == GenerateStarted(old(State())).state
      ensures request == GenerateStarted(old(State())).request
    {
      ghost var started := GenerateStarted(State());
      if userImage.None? {
        return None;
      }
      request := Some(OutfitRequest(userImage.value, SelectedItems(selectedOutfit)));
      step, isLoading, error := Generate, true, None;
      assert State() == started.state;
    }

    method FinishProceedToGenerate(outcome: CallOutcome<string>)
      requires Valid() && step == Generate
      modifies this
      ensures State() == GenerateFinished(old(State()), outcome)
      ensures Valid()
    {
      match outcome {
        case Resolved(image) =>
          generatedImage := Some(image);
          step := Customize;
        case Rejected(message) =>
          error := Some(ErrorText(message, UnknownError));
          step := Select;
      }
      isLoading := false;
    }

    method HandleFinalize(finalImage: string)
      requires Valid() && step == Customize
      modifies this
      ensures State() == Finalized(old(State()), finalImage)
      ensures Valid()
    {
      generatedImage := Some(finalImage);
      step := Result;
    }

    method HandleStartOver()
      requires Valid()
      modifies this
      ensures State() == StartedOver(old(State()))
      ensures Valid()
    {
      userImage, generatedImage, error, isLoading, step := None, None, None, false, Capture;
      selectedOutfit, fitAnalysis, userHeight := EmptyOutfit, None, None;
      preview := preview.(image := None, isLoading := false);
    }

    method HandleItemCreated(item: ClothingItem)
      requires Valid()
      modifies this
      ensures State() == ItemCreated(old(State()), item)
      ensures Valid()
    {
      collections := collections.(clothingItems := [item] + collections.clothingItems);
      HandleSelectClothing(item);
    }

    /** `id` is the `Date.now()` of the click. */
    method HandleSaveLook(id: int)
      requires Valid()
      modifies this
      ensures State() == LookSaved(old(State()), id)
      ensures Valid()
    {
      if !Present(generatedImage) || userImage.None? {
        return;
      }
      var look := SavedLook(id, generatedImage.value, userImage.value, selectedOutfit);
      collections := collections.(savedLooks := [look] + collections.savedLooks);
    }

    method HandleDeleteLook(id: int)
      requires Valid()
      modifies this
      ensures State() == LookDeleted(old(State()), id)
      ensures Valid()
    {
      collections := collections.(savedLooks := WithoutId(collections.savedLooks, id, LookId));
    }

    /** `id` is the `Date.now()` of the click. */
    method HandleSaveMeasurements(id: int)
      requires Valid()
      modifies this
      ensures State() == MeasurementsSaved(old(State()), id)
      ensures Valid()
    {
      if fitAnalysis.None? || userImage.None? {
        return;
      }
      var entry := SavedMeasurement(id, fitAnalysis.value, userImage.value, selectedOutfit);
      collections := collections.(savedMeasurements := [entry] + collections.savedMeasurements);
    }

    method HandleDeleteMeasurement(id: int)
      requires Valid()
      modifies this
      ensures State() == MeasurementDeleted(old(State()), id)
      ensures Valid()
    {
      collections := collections.(savedMeasurements := WithoutId(collections.savedMeasurements, id, MeasurementId));
    }

    /** The back link of the selection screen. */
    method GoBackToHeight()
      requires Valid() && step == Select
      modifies this
      ensures State() == BackToHeight(old(State()))
      ensures Valid()
    {
      step := Height;
    }

    /** The back links of the measurements and customise screens. */
    method GoBackToSelect()
      requires Valid() && (step == Measure || step == Customize)
      modifies this
      ensures State() == BackToSelect(old(State()))
      ensures Valid()
    {
      step := Select;
    }

    method DismissError()
      requires Valid()
      modifies this
      ensures State() == ErrorDismissed(old(State()))
      ensures Valid()
    {
      error := None;
    }

    /** The preview effect: the previous run's cleanup, then the effect body. */
    method SyncPreview()
      requires Valid()
      modifies this
      ensures State() == PreviewSynced(old(State()))
      ensures Valid()
    {
      preview := preview.(pending := None);
      if step != Select || userImage.None? {
        return;
      }
      var items := SelectedItems(selectedOutfit);
      if |items| == 0 {
        preview := preview.(image := Some(userImage.value.url), isLoading := false);
        return;
      }
      preview := preview.(pending := Some(OutfitRequest(userImage.value, items)));
    }

    /** The 800 ms debounce timer fires, if one is pending. */
    method PreviewTimerFires() returns (request: Option<OutfitRequest>)
      requires Valid()
      modifies this
      ensures Valid()
      ensures State() == PreviewTimerFired(old(State())).state
      ensures request == PreviewTimerFired(old(State())).request
    {
      request := preview.pending;
      if request.Some? {
        preview := preview.(pending := None, isLoading := true);
      }
    }

    /** A preview call made for `request` ends. */
    method PreviewCallEnds(request: OutfitRequest, outcome: CallOutcome<string>)
      requires Valid()
      modifies this
      ensures State() == PreviewResolved(old(State()), request, outcome)
      ensures Valid()
    {
      match outcome {
        case Resolved(image) =>
          preview := preview.(image := Some(Base64Url("image/png", image)), isLoading := false);
        case Rejected(_) =>
          preview := preview.(image := Some(request.photo.url), isLoading := false);
      }
    }
  }
}
