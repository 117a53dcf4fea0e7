/**
 * The child views of App.tsx that keep state of their own and hand their results to the
 * studio: the "saved" flags of `MeasurementsView` and `ResultView`, and the garment-creation
 * modal `GenerateClothingModal`.
 */
module Views {
  import opened Basics
  import opened Types
  import opened JsText
  import opened ImageHelpers
  import opened Forms
  import opened Workflow
  import opened Studio

  /**
   * `MeasurementsView`: `isSaved` starts false on every mount and turns true after the first
   * save; the save button is disabled from then on.
   */
  class MeasurementsView {
    var isSaved: bool

    constructor()
      ensures !isSaved
    {
      isSaved := false;
    }

    /** The "Save Measurements" button is enabled until it has been clicked once. */
    predicate SaveEnabled()
      reads this
    {
      !isSaved
    }

    /** `handleSave`: `onSave` (the studio's `handleSaveMeasurements`), then `setIsSaved(true)`. */
    method Save(studio: TryOnStudio, id: int)
      requires SaveEnabled() && studio.Valid()
      modifies this, studio
      ensures studio.Valid() && studio.State() == MeasurementsSaved(old(studio.State()), id)
      ensures isSaved && !SaveEnabled()
    {
      studio.HandleSaveMeasurements(id);
      isSaved := true;
    }
  }

  /**
   * `ResultView`: shows `finalImage` (the studio's generated image) with a save button that
   * works once per image; a new `finalImage` enables it again.
   */
  class ResultView {
    var finalImage: string
    var isSaved: bool

    constructor(finalImage: string)
      ensures this.finalImage == finalImage && !isSaved
    {
      this.finalImage := finalImage;
      isSaved := false;
    }

    predicate SaveEnabled()
      reads this
    {
      !isSaved
    }

    /**
     * The view is rendered again with `image`; the effect on `[finalImage]` runs only when the
     * image differs from the previous render and then clears the flag.
     */
    method FinalImageChanged(image: string)
      modifies this
      ensures finalImage == image
      ensures image != old(finalImage) ==> SaveEnabled()
      ensures image == old(finalImage) ==> isSaved == old(isSaved)
    {
      if image != finalImage {
        isSaved := false;
      }
      finalImage := image;
    }

    /**
     * `handleSave`: `onSaveLook` (the studio's `handleSaveLook`), then `setIsSaved(true)`. The
     * look stored is the image on screen whenever the studio holds it as its generated image
     * (an empty image is not saved).
     */
    method Save(studio: TryOnStudio, id: int)
      requires SaveEnabled() && studio.Valid()
      modifies this, studio
      ensures studio.Valid() && studio.State() == LookSaved(old(studio.State()), id)
      ensures old(studio.State()).generatedImage == Some(finalImage) && finalImage != [] && old(studio.State()).userImage.Some? ==>
        studio.State().savedLooks != [] && studio.State().savedLooks[0].finalImage == finalImage
      ensures finalImage == old(finalImage) && isSaved && !SaveEnabled()
    {
      studio.HandleSaveLook(id);
      isSaved := true;
    }
  }

  /** The message shown when Generate is clicked with a blank description. */
  const EmptyPromptMessage: string := "Please enter a description for your clothing item."

  /** The message shown when `generateClothingItem` fails without an `Error` message. */
  const GenerateFallback: string := "An unknown error occurred."

  /**
   * The garment `handleUseItem` creates: named after the prompt (shortened), of the chosen
   * type, its JPEG image as a data URL, described by the whole prompt.
   */
  function NewItem(id: int, prompt: string, itemType: ClothingType, image: string): (item: ClothingItem)
    ensures item.id == id && item.category == itemType && item.description == prompt
    ensures |item.name| <= MaxNameLength + 1
    ensures |prompt| <= MaxNameLength ==> item.name == prompt
  {
    ClothingItem(id, ItemName(prompt), itemType, Base64Url("image/jpeg", image), prompt)
  }

  /** The created garment's image URL gives the generated image and its JPEG type back. */
  lemma NewItemImageParts(id: int, prompt: string, itemType: ClothingType, image: string)
    requires image != [] && ',' !in image
    ensures var url := NewItem(id, prompt, itemType, image).imageUrl;
      Parseable(url) && DataUrlToParts(url) == Ok(Parts(image, "image/jpeg"))
  {
    var mime := "image/jpeg";
    assert ',' !in mime && ':' !in mime && ';' !in mime;
    DataUrlRoundTrip(mime, image);
  }

  /**
   * `GenerateClothingModal`: the description being typed, the chosen type, whether a
   * `generateClothingItem` call is pending, the error, and the garment image generated last.
   */
  class GenerateClothingModal {
    var prompt: string
    var itemType: ClothingType
    var isLoading: bool
    var error: Option<string>
    var generatedImage: Option<string>

    constructor()
      ensures prompt == [] && itemType == Top && !isLoading && error == None && generatedImage == None
    {
      prompt := [];
      itemType := Top;
      isLoading := false;
      error := None;
      generatedImage := None;
    }

    /** The effect on `[initialType]`: a category given by the opener becomes the chosen type. */
    method InitialTypeChanged(initialType: Option<ClothingType>)
      modifies this
      ensures initialType.Some? ==> itemType == initialType.value
      ensures initialType.None? ==> itemType == old(itemType)
      ensures prompt == old(prompt) && isLoading == old(isLoading)
      ensures error == old(error) && generatedImage == old(generatedImage)
    {
      if initialType.Some? {
        itemType := initialType.value;
      }
    }

    /** The description field's `onChange`. */
    method EditPrompt(text: string)
      modifies this
      ensures prompt == text && itemType == old(itemType) && isLoading == old(isLoading)
      ensures error == old(error) && generatedImage == old(generatedImage)
    {
      prompt := text;
    }

    /** The type selector's `onChange`. */
    method ChooseType(t: ClothingType)
      modifies this
      ensures itemType == t && prompt == old(prompt) && isLoading == old(isLoading)
      ensures error == old(error) && generatedImage == old(generatedImage)
    {
      itemType := t;
    }

    /**
     * First half of `handleGenerate`: a blank description only shows the error; otherwise the
     * modal turns busy, forgets the previous error and image, and the untrimmed prompt is sent.
     */
    method BeginGenerate() returns (request: Option<string>)
      modifies this
      ensures request.Some? <==> !PromptIsBlank(old(prompt))
      ensures request.Some? ==> request.value == old(prompt)
      ensures request.None? ==>
        && error == Some(EmptyPromptMessage)
        && isLoading == old(isLoading) && generatedImage == old(generatedImage)
      ensures request.Some? ==> isLoading && error == None && generatedImage == None
      ensures prompt == old(prompt) && itemType == old(itemType)
    {
      var text := prompt;
      var blank := PromptIsBlank(text);
      if blank {
        request, error := None, Some(EmptyPromptMessage);
      } else {
        request, isLoading, error, generatedImage := Some(text), true, None, None;
      }
    }

    /** Second half of `handleGenerate`: the image is shown, or the error; the modal is idle again. */
    method FinishGenerate(outcome: CallOutcome<string>)
      modifies this
      ensures !isLoading && prompt == old(prompt) && itemType == old(itemType)
      ensures outcome.Resolved? ==> generatedImage == Some(outcome.value) && error == old(error)
      ensures outcome.Rejected? ==>
        generatedImage == old(generatedImage) && error == Some(ErrorText(outcome.message, GenerateFallback))
    {
      match outcome {
        case Resolved(image) =>
          generatedImage := Some(image);
        case Rejected(message) =>
          error := Some(ErrorText(message, GenerateFallback));
      }
      isLoading := false;
    }

    /** `handleClose`: everything but the chosen type is cleared. */
    method Close()
      modifies this
      ensures prompt == [] && !isLoading && error == None && generatedImage == None
      ensures itemType == old(itemType)
    {
      prompt, isLoading, error, generatedImage := [], false, None, None;
    }

    /**
     * `handleUseItem`: without a generated image (an empty one counts as none) nothing happens; otherwise the new garment
     * goes to the studio (`handleItemCreated`) and the modal closes. `id` is `Date.now()`.
     */
    method UseItem(studio: TryOnStudio, id: int)
      requires studio.Valid()
      modifies this, studio
      ensures studio.Valid()
      ensures !Present(old(generatedImage)) ==>
        && studio.State() == old(studio.State())
        && prompt == old(prompt) && generatedImage == old(generatedImage) && error == old(error)
      ensures Present(old(generatedImage)) ==>
        && studio.State() == ItemCreated(old(studio.State()),
                                         NewItem(id, old(prompt), old(itemType), old(generatedImage).value))
        && prompt == [] && !isLoading && error == None && generatedImage == None
      ensures itemType == old(itemType)
    {
      if !Present(generatedImage) {
        return;
      }
      var item := NewItem(id, prompt, itemType, generatedImage.value);
      studio.HandleItemCreated(item);
      Close();
    }
  }
}
