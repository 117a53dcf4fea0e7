/**
 * The edit history of `CustomizeView` in App.tsx: a non-empty list of generated images whose
 * last element is the image on screen, grown by each successful customisation and shrunk by
 * undo, reset to the image the view was opened with.
 */
module EditHistory {
  import opened Basics
  import opened Types
  import opened JsText
  import opened ImageHelpers
  import opened Workflow
  import opened Studio

  /** The error shown when a customisation fails without an `Error` message. */
  const CustomizeFallback: string := "Failed to apply customization."

  /** The arguments of one `customizeOutfit` call: the image to modify and the instruction. */
  datatype CustomizeRequest = CustomizeRequest(photo: UserImage, instruction: string)

  /** `handleUndo` on a history: the last image is dropped unless it is the only one. */
  function Undone(h: seq<string>): (r: seq<string>)
    requires |h| >= 1
    ensures |r| >= 1 && r[0] == h[0] && r <= h
    ensures |r| == if |h| > 1 then |h| - 1 else 1
  {
    if |h| > 1 then h[..|h| - 1] else h
  }

  /** `k` undo clicks in a row. */
  function UndoTimes(h: seq<string>, k: nat): (r: seq<string>)
    requires |h| >= 1
    decreases k
  {
    if k == 0 then h else UndoTimes(Undone(h), k - 1)
  }

  /** Undo right after a successful customisation brings back the history before it. */
  lemma UndoAfterAppend(h: seq<string>, image: string)
    requires |h| >= 1
    ensures Undone(h + [image]) == h
  {
    assert (h + [image])[..|h|] == h;
  }

  /** After `k` undos the history is its first `|h| - k` images, and never less than the first one. */
  lemma {:induction false} UndoTimesPrefix(h: seq<string>, k: nat)
    requires |h| >= 1
    ensures UndoTimes(h, k) == if k < |h| then h[..|h| - k] else [h[0]]
    decreases k
  {
    if k == 0 {
      assert h[..|h|] == h;
    } else {
      UndoTimesPrefix(Undone(h), k - 1);
      if |h| == 1 {
        assert h == [h[0]];
      } else {
        assert Undone(h) == h[..|h| - 1];
        if k < |h| {
          assert h[..|h| - 1][..|h| - k] == h[..|h| - k];
        }
      }
    }
  }

  /** Undoing every customisation leads back to the image the view was opened with, and further undos change nothing. */
  lemma UndoToOriginal(h: seq<string>, extra: nat)
    requires |h| >= 1
    ensures UndoTimes(h, |h| - 1 + extra) == [h[0]]
  {
    UndoTimesPrefix(h, |h| - 1 + extra);
    if extra == 0 {
      assert h[..1] == [h[0]];
    }
  }

  /**
   * The current image wrapped as `data:image/png;base64,...` is taken apart again unless it is
   * empty or starts with a comma; a comma-free image comes back whole.
   */
  lemma PngUrlParts(image: string)
    ensures Parseable(Base64Url("image/png", image))
    ensures DataUrlToParts(Base64Url("image/png", image)).Ok? <==> image != [] && image[0] != ','
    ensures image != [] && image[0] != ',' ==>
      DataUrlToParts(Base64Url("image/png", image)) == Ok(Parts(Split(image, ',')[0], "image/png"))
    ensures ',' !in image && image != [] ==>
      DataUrlToParts(Base64Url("image/png", image)) == Ok(Parts(image, "image/png"))
  {
    var mime := "image/png";
    assert ',' !in mime && ':' !in mime && ';' !in mime;
    Base64UrlParts(mime, image);
    if ',' !in image {
      SplitWhole(image, ',');
    }
  }

  /**
   * `CustomizeView`: the history starts as `[generatedImage]`; its last element is the current
   * image. `isCustomizing` is true while a `customizeOutfit` call is pending.
   */
  class CustomizeView {
    const generatedImage: string
    var history: seq<string>
    var isCustomizing: bool
    var error: Option<string>

    /** The history is never empty and always starts with the image the view was opened with. */
    predicate Valid()
      reads this
    {
      |history| >= 1 && history[0] == generatedImage
    }

    constructor(generatedImage: string)
      ensures Valid()
      ensures this.generatedImage == generatedImage && history == [generatedImage]
      ensures !isCustomizing && error == None
    {
      this.generatedImage := generatedImage;
      history := [generatedImage];
      isCustomizing := false;
      error := None;
    }

    /** `currentImage`: the last image of the history. */
    function Current(): (image: string)
      reads this
      requires Valid()
      ensures image in history
      ensures |history| == 1 ==> image == generatedImage
    {
      history[|history| - 1]
    }

    /** The customisation, finalize and back buttons are enabled while no call is pending. */
    predicate CustomizeEnabled()
      reads this
    {
      !isCustomizing
    }

    /** The undo and reset buttons need an idle view and a history longer than one image. */
    predicate UndoEnabled()
      reads this
    {
      !isCustomizing && |history| > 1
    }

    /**
     * First half of `handleCustomize(instruction)`: the view turns busy and clears its error,
     * then wraps the current image as `data:image/png;base64,...` and takes it apart again with
     * `dataUrlToParts`. The request for `customizeOutfit` comes back; when the wrapping fails
     * ("Invalid data URL") the catch and finally blocks run at once and no request is made.
     * The source does not check `isCustomizing` here; only the disabled buttons do.
     */
    method BeginCustomize(instruction: string) returns (request: Option<CustomizeRequest>)
      requires Valid()
      modifies this
      ensures Valid() && history == old(history)
      ensures var image := old(Current());
        request.Some? <==> image != [] && image[0] != ','
      ensures var image := old(Current()); var url := Base64Url("image/png", image);
        request.Some? ==> request == Some(CustomizeRequest(UserImage(Split(image, ',')[0], "image/png", url), instruction))
      ensures var image := old(Current()); var url := Base64Url("image/png", image);
        ',' !in image && image != [] ==>
          request == Some(CustomizeRequest(UserImage(image, "image/png", url), instruction))
      ensures request.Some? ==> isCustomizing && error == None
      ensures request.None? ==> !isCustomizing && error == Some(InvalidDataUrl)
    {
      isCustomizing := true;
      error := None;
      var imageToModify := history[|history| - 1];
      var dataUrl := Base64Url("image/png", imageToModify);
      PngUrlParts(imageToModify);
      var parts := DataUrlToParts(dataUrl);
      match parts
      case Err(message) =>
        error := Some(message);
        isCustomizing := false;
        request := None;
      case Ok(p) =>
        request := Some(CustomizeRequest(UserImage(p.base64, p.mimeType, dataUrl), instruction));
    }

    /**
     * Second half of `handleCustomize`: a resolved call appends the new image to the history
     * (`setHistory(prev => [...prev, image])`); a rejected one leaves the history alone and
     * shows the error. Either way the view is idle again.
     */
    method FinishCustomize(outcome: CallOutcome<string>)
      requires Valid()
      modifies this
      ensures Valid() && !isCustomizing
      ensures outcome.Resolved? ==> history == old(history) + [outcome.value] && error == old(error)
      ensures outcome.Rejected? ==>
        history == old(history) && error == Some(ErrorText(outcome.message, CustomizeFallback))
    {
      match outcome {
        case Resolved(image) =>
          history := history + [image];
        case Rejected(message) =>
          error := Some(ErrorText(message, CustomizeFallback));
      }
      isCustomizing := false;
    }

    /** `handleUndo`: drops the last image when there is more than one. */
    method Undo()
      requires Valid()
      modifies this
      ensures Valid() && history == Undone(old(history))
      ensures isCustomizing == old(isCustomizing) && error == old(error)
    {
      if |history| > 1 {
        history := history[..|history| - 1];
      }
    }

    /** `handleReset`: back to the image the view was opened with. */
    method Reset()
      requires Valid()
      modifies this
      ensures Valid() && history == [generatedImage]
      ensures isCustomizing == old(isCustomizing) && error == old(error)
    {
      history := [generatedImage];
    }

    /**
     * The "Finalize Look" button: `onFinalize(currentImage)`, where `onFinalize` is the studio's
     * `handleFinalize`. The view is mounted only on the customise step, with the studio's
     * generated image as `generatedImage`; the button is disabled while a call is pending.
     */
    method Finalize(studio: TryOnStudio) returns (finalImage: string)
      requires Valid() && CustomizeEnabled()
      requires studio.Valid() && studio.step == Customize && studio.generatedImage == Some(generatedImage)
      modifies studio
      ensures finalImage == Current() && finalImage in history
      ensures studio.Valid() && studio.State() == Finalized(old(studio.State()), finalImage)
      ensures studio.step == Result && studio.generatedImage == Some(finalImage)
    {
      finalImage := history[|history| - 1];
      studio.HandleFinalize(finalImage);
    }
  }

  /**
   * A customisation (`instruction` sent, `edited` returned), one undo, then "Finalize Look": the
   * studio's result is the image the customise step was opened with, and the photo and outfit
   * are unchanged. The opening image must survive the PNG wrapping, so it must not start with a comma.
   */
  method FinalizeAfterUndo(studio: TryOnStudio, instruction: string, edited: string) returns (view: CustomizeView)
    requires studio.Valid() && studio.step == Customize && Present(studio.generatedImage)
    requires studio.generatedImage.value[0] != ','
    modifies studio
    ensures fresh(view) && view.history == [old(studio.generatedImage).value]
    ensures studio.Valid() && studio.State() == Finalized(old(studio.State()), old(studio.generatedImage).value)
    ensures studio.step == Result && studio.generatedImage == old(studio.generatedImage)
    ensures studio.userImage == old(studio.userImage) && studio.selectedOutfit == old(studio.selectedOutfit)
  {
    view := new CustomizeView(studio.generatedImage.value);
    var request := view.BeginCustomize(instruction);
    assert request.Some?;
    view.FinishCustomize(Resolved(edited));
    assert view.history == [view.generatedImage, edited];
    view.Undo();
    assert view.history == [view.generatedImage];
    var shown := view.Finalize(studio);
  }
}
