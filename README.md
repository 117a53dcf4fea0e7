# 1 of One virtual try-on studio: a Dafny model

This project models the core of the "1 of One" try-on web app (App.tsx, types.ts and
utils/imageHelpers.ts). The user:

- takes or uploads a photo and gives their height;
- picks up to one garment per category (top, pants, shoes, accessory), with a live preview;
- gets measurements and a try-on image from a generation service;
- refines the image with undoable edits;
- saves the finished look or the measurements.

The model is split into modules that follow the program:

- `Types`: the records of types.ts.
- `JsText`: the JavaScript string operations the code relies on (`trim`, `parseInt`, `split`).
- `ImageHelpers`: `dataUrlToParts` and the data URLs the app builds.
- `Outfit`:
  - toggling a garment in and out of the outfit;
  - the list of selected garments;
  - the catalogue grouped by category.
- `Forms`:
  - `formatMeasurement`;
  - the height form;
  - the name given to a created garment;
  - the blank-prompt check.
- `SavedCollections`: deleting saved entries by id.
- `EditHistory`: the undo history of the customise screen, as the class `CustomizeView`.
- `Workflow`:
  - the studio's state as a value (`Snapshot`);
  - one transition function per handler;
  - `ScreenOf`, which mirrors `renderContent` and decides which controls can be reached;
  - `Apply` and `Run`, which run a sequence of user actions and service replies;
  - lemmas about runs: the state stays consistent, save-then-delete restores the list, the full journey works end to end, and a pending call locks the screen.
- `Studio`: the `TryOnStudio` component as the class `TryOnStudio`:
  - its `useState` hooks are fields;
  - each handler is a method that updates them;
  - each method is proved to perform the corresponding `Workflow` transition (`HandleImageCaptured` performs `Captured`, `BeginProceedToMeasure` performs `MeasureStarted`, and so on).
- `Views`:
  - the "saved" flags of `MeasurementsView` and `ResultView`;
  - the garment-creation modal `GenerateClothingModal`.

Three things in the source happen outside the model:

- **Calls to the generation service.** Each asynchronous handler is split in two. The first
  method does what the handler does before its `await` and returns the request. The second
  takes how the call ended (`CallOutcome`: resolved with a value, or rejected with an `Error`
  message or without one) and does the rest. The service is not modelled.
- **`Date.now()`.** Ids are parameters.
- **Reading the file of an upload.** Its result is a parameter.

## Model

| member | source | states |
|---|---|---|
| Basics.ErrorText | App.tsx:1176 | the text a catch block shows: the `Error`'s message when there is one, the fallback otherwise |
| Types.Rank | types.ts:19-24 | each category has a position in the key order of `SelectedOutfit` and that position names it |
| Types.SelectedOutfit.With | types.ts:19-24 | `{...o, [t]: v}`: slot `t` holds `v` and every other slot is unchanged |
| Types.StepsAreSeven | types.ts:9 | the workflow has exactly seven distinct steps and every step is one of them |
| Types.OutfitExtensional | types.ts:19-24 | two outfits with the same four slots are equal |
| JsText.TrimStart | App.tsx:50-51 | the leading white space of `trim` is removed: what is cut is white space and the rest starts with non-space |
| JsText.TrimEnd | App.tsx:50-51 | the same at the end of the string |
| JsText.TrimIsCore | App.tsx:50-51 | `trim` returns a substring that neither starts nor ends with white space, and is empty exactly when the string is all white space |
| JsText.TrimBlankIffAllSpace | App.tsx:751 | `trim` gives the empty string exactly when every character is white space |
| JsText.Trim | App.tsx:51 | `trim`: the leading and then the trailing white space removed |
| JsText.ParseInt | App.tsx:270-275 | `parseInt(s)` without a radix: leading white space skipped, an optional sign, base 16 after "0x", the longest run of digits; `None` (NaN) when there is none |
| JsText.TrimIdempotent | App.tsx:50-51 | trimming twice is trimming once |
| JsText.DigitPrefix | App.tsx:270 | `parseInt` reads the longest prefix of digits of the radix and stops at the first other character |
| JsText.ParseDecimal | App.tsx:275 | `parseInt` of a string of decimal digits is its decimal value |
| JsText.ParseBlank | App.tsx:270 | `parseInt` of a blank string is NaN (`None`) |
| JsText.Split | utils/imageHelpers.ts:16 | `split(sep)` gives at least one piece, no piece holds the separator, the first piece is a prefix, and there is one piece exactly when the separator is absent |
| JsText.SplitJoin | utils/imageHelpers.ts:16 | joining the pieces of `split` with the separator gives the string back |
| JsText.SplitAtFirst | utils/imageHelpers.ts:16 | the text before the first separator is the first piece and the rest is split on its own |
| JsText.SplitWhole | utils/imageHelpers.ts:16 | a string without the separator splits into itself |
| JsText.SplitFirstPiece | utils/imageHelpers.ts:16 | a separator-free prefix stays at the front of the first piece |
| JsText.SplitFirstEmpty | utils/imageHelpers.ts:16-17 | a string that is empty or starts with the separator has an empty first piece |
| JsText.SplitFirstStarts | utils/imageHelpers.ts:16-17 | a string that does not start with the separator has a non-empty first piece starting with its first character |
| ImageHelpers.DataUrlToParts | utils/imageHelpers.ts:15-22 | "Invalid data URL" exactly when the header or the data before the second comma is missing; otherwise the data is a non-empty comma-free base64 part and the MIME type holds neither ':' nor ';' |
| ImageHelpers.MimeOfHeader | utils/imageHelpers.ts:20 | the MIME type is the text between the first ':' and the next ';' or ':' |
| ImageHelpers.ParseEmbedded | utils/imageHelpers.ts:15-22 | for a URL `pre:mime;…,payload` the result is the MIME type with the payload up to its first comma, or the error when that is empty |
| ImageHelpers.Base64UrlParts | utils/imageHelpers.ts:15-22 | a `data:mime;base64,payload` URL is rejected exactly when the payload is empty or starts with a comma, and otherwise yields the MIME type and the payload up to its first comma |
| ImageHelpers.DataUrlRoundTrip | utils/imageHelpers.ts:15-22 | round trip: the URL built from a MIME type and a non-empty comma-free payload yields them back |
| ImageHelpers.TrailingPiecesDropped | utils/imageHelpers.ts:16 | text after a second comma never changes the result |
| ImageHelpers.NoCommaRejected | utils/imageHelpers.ts:16-18 | a URL without a comma is rejected |
| ImageHelpers.EmptyHeaderRejected | utils/imageHelpers.ts:16-18 | a URL starting with a comma is rejected |
| Outfit.HasSelection | App.tsx:346 | `hasSelection`: some slot of the outfit is occupied |
| Outfit.IsSelected | App.tsx:379 | `isSelected`: the garment's category slot holds a garment with its id |
| Outfit.Toggle | App.tsx:1149-1154 | the garment's slot becomes empty if that garment (same id) was in it and holds the garment otherwise; the other slots are unchanged; a well-slotted outfit stays well slotted |
| Outfit.ToggleFlipsSelection | App.tsx:1149-1154 | toggling flips whether the garment is selected |
| Outfit.ToggleTwice | App.tsx:1149-1154 | toggling twice restores the outfit when the slot was empty or held that garment |
| Outfit.SlotValues | App.tsx:1091 | `Object.values(outfit)` lists the four slots in key order |
| Outfit.Occupied | App.tsx:1091-1092 | the non-null filter keeps exactly the occupied slots and is empty when all are empty |
| Outfit.OccupiedAscending | App.tsx:1091-1092 | the filter keeps slot order |
| Outfit.SelectedItems | App.tsx:1161-1162 | the selected garments: at most four, none exactly when nothing is selected, exactly the occupied slots, in category order |
| Outfit.SlotsOfOutfit | App.tsx:1091-1092 | the slot list is all empty exactly when nothing is selected, and holds exactly the outfit's garments |
| Outfit.SlotsRanked | App.tsx:1091-1092 | in a well-slotted outfit the kept garments come in category order |
| Outfit.ClothingByType | App.tsx:336-344 | the reduce makes a key exactly for the categories that have garments, each mapped to that category's garments in catalogue order |
| Outfit.OfCategoryMembers | App.tsx:336-344 | a category's group holds exactly the catalogue's garments of that category |
| Outfit.OfCategoryPrepend | App.tsx:336-344 | a garment put in front of the catalogue goes in front of its own group only |
| Outfit.CreatedItemLeadsCategory | App.tsx:336-344 | a created garment (prepended at App.tsx:1222) heads its category's group and leaves the other groups unchanged |
| Forms.LooksNumeric | App.tsx:52 | `/^[\d\.\-]+$/`: a non-empty run of ASCII digits, '.' and '-' |
| Forms.FormatMeasurement | App.tsx:50-56 | the trimmed value gets " inches" appended exactly when it is a non-empty run of digits, '.' and '-' |
| Forms.FormatIdempotent | App.tsx:50-56 | formatting a formatted value changes nothing |
| Forms.FormatTrimmed | App.tsx:50-56 | the shown value neither starts nor ends with white space |
| Forms.HeightFormValid | App.tsx:275 | `isFormValid`: both trimmed fields non-empty, `parseInt(feet) >= 3`, `0 <= parseInt(inches) < 12`, NaN failing every comparison |
| Forms.HandleSubmit | App.tsx:269-273 | the height `F'I"` is submitted exactly when both fields are non-empty and `parseInt` reads a number from each |
| Forms.ContinueHeight | App.tsx:269-275 | with the button enabled only on a valid form (line 314), `F'I"` is submitted exactly when both trimmed fields are non-empty, the feet are at least 3 and the inches are 0 to 11 |
| Forms.OneDigitNotBlank | App.tsx:275 | a single digit is not blank |
| Forms.OneDigitValue | App.tsx:275 | `parseInt` of a single digit is its value |
| Forms.OneDigitField | App.tsx:275 | a single digit field trims to itself |
| Forms.HeightAccepted | App.tsx:266-275 | the form's default 5 ft 9 in is valid |
| Forms.HeightTooShortRejected | App.tsx:275 | 2 ft is rejected |
| Forms.HeightInchesRejected | App.tsx:275 | 12 in is rejected |
| Forms.BlankHeightRejected | App.tsx:275 | a blank field is never submitted |
| Forms.ItemName | App.tsx:772 | a prompt of at most 20 characters is the name itself; a longer one becomes its first 18 characters followed by "..."; the name never exceeds 21 characters |
| Forms.ItemNameIdempotent | App.tsx:772 | naming an already shortened name keeps it |
| Forms.PromptBlankIffTrimEmpty | App.tsx:751 | a prompt is refused (all white space) exactly when `!prompt.trim()` holds |
| SavedCollections.WithoutId | App.tsx:1239-1243 | `filter(e => e.id !== id)`: never longer, keeps exactly the entries with another id, and leaves none with that id |
| SavedCollections.WithoutIdAppend | App.tsx:1240 | the filter works segment by segment, so the kept entries keep their order |
| SavedCollections.WithoutAbsentId | App.tsx:1240 | deleting an id nobody carries changes nothing |
| SavedCollections.WithoutIdIdempotent | App.tsx:1258-1262 | deleting the same id twice is deleting it once |
| SavedCollections.SaveThenDelete | App.tsx:1226-1243 | deleting an entry just saved under a fresh id restores the list |
| SavedCollections.DeleteKeepsNewest | App.tsx:1239-1243 | deleting another id keeps the newest entry in front |
| EditHistory.Undone | App.tsx:573-577 | undo drops the last image unless it is the only one; the result is a non-empty prefix that keeps the first image |
| EditHistory.UndoAfterAppend | App.tsx:563-577 | an undo right after a successful customisation restores the history before it |
| EditHistory.UndoTimesPrefix | App.tsx:573-577 | after k undos the history is its first `n - k` images, and never less than the first one |
| EditHistory.UndoToOriginal | App.tsx:573-581 | undoing every customisation leads back to the image the view opened with, and further undos change nothing |
| EditHistory.PngUrlParts | App.tsx:560-562 | the current image wrapped as a PNG data URL parses exactly when it is non-empty and does not start with a comma, and then gives the image up to its first comma with "image/png"; a comma-free image comes back whole |
| EditHistory.CustomizeView.constructor | App.tsx:551-553 | the history starts as the generated image alone; idle and without an error |
| EditHistory.CustomizeView.Current | App.tsx:555 | the image on screen is in the history, and is the generated image while nothing has been applied |
| EditHistory.CustomizeView.BeginCustomize | App.tsx:557-563 | the view turns busy and clears its error; a request goes out exactly when the wrapped image parses, carrying the image up to its first comma (all of it when it has no comma), "image/png" and the URL; otherwise "Invalid data URL" is shown and the view is idle |
| EditHistory.CustomizeView.FinishCustomize | App.tsx:563-570 | a new image is appended to the history, or the error (fallback "Failed to apply customization.") is shown with the history unchanged; idle either way |
| EditHistory.CustomizeView.Undo | App.tsx:573-577 | the history becomes `Undone` of the old one and stays valid |
| EditHistory.CustomizeView.Reset | App.tsx:579-581 | the history is the generated image alone again |
| EditHistory.CustomizeView.Finalize | App.tsx:657 | "Finalize Look" hands the image on screen (the last of the history) to the studio's `handleFinalize` (line 1315): the studio performs `Finalized` with it and shows it on the result step |
| EditHistory.FinalizeAfterUndo | App.tsx:573-581 | a customisation (request sent, then its reply appended), one undo, then "Finalize Look": for an opening image that does not start with a comma, the studio's result is the image the customise step opened with, with photo and outfit unchanged |
| EditHistory.CustomizeView.CustomizeEnabled | App.tsx:608-658 | the customisation, finalize and back buttons are enabled exactly while no call is pending |
| EditHistory.CustomizeView.UndoEnabled | App.tsx:654-655 | undo and reset are enabled only when idle with more than one image in the history |
| Workflow.Initial | App.tsx:1049-1080 | on mount: capture step, empty outfit, no photo, idle, no error; the catalogue and the stored lists as given; consistent |
| Workflow.Captured | App.tsx:1120-1123 | the photo is kept and the height step follows |
| Workflow.UploadStarted | App.tsx:1125-1128 | busy and error cleared before the file is read |
| Workflow.UploadFinished | App.tsx:1129-1138 | a decoded photo is kept and the height step follows, or "Failed to process the uploaded image." is shown; idle either way |
| Workflow.HeightSubmitted | App.tsx:1141-1147 | the height is kept, the preview starts as the photo, and the selection step follows |
| Workflow.ClothingSelected | App.tsx:1149-1154 | only the outfit changes, to `Toggle` of it with the garment: the garment's selection flips and the other slots are unchanged |
| Workflow.MeasureStarted | App.tsx:1156-1171 | no photo: "No user image available to generate from."; nothing selected: "Please select at least one clothing item."; otherwise the measure step, busy, and a request with the photo, the one to four selected garments and the height |
| Workflow.MeasureFinished | App.tsx:1172-1180 | the analysis is kept, or the error is shown and the selection step returns with the outfit kept; idle either way |
| Workflow.GenerateStarted | App.tsx:1183-1190 | without a photo nothing happens; otherwise the generate step, busy, and a request with the photo and the selected garments |
| Workflow.GenerateFinished | App.tsx:1191-1200 | the image is kept and the customise step follows, or the error is shown and the selection step returns; idle either way |
| Workflow.Finalized | App.tsx:1203-1206 | the chosen image becomes the result and the result step follows |
| Workflow.StartedOver | App.tsx:1208-1219 | back to capture with no photo, height, outfit, analysis, generated image, preview or error, and idle; the catalogue and both saved lists survive |
| Workflow.ItemCreated | App.tsx:1221-1224 | the garment goes in front of the catalogue and is toggled into the outfit |
| Workflow.LookSaved | App.tsx:1226-1237 | without a non-empty generated image or a photo nothing changes; otherwise a look with both and the outfit goes in front of the saved looks |
| Workflow.LookDeleted | App.tsx:1239-1243 | only the saved looks change, and they keep exactly the looks with another id |
| Workflow.MeasurementsSaved | App.tsx:1245-1256 | without an analysis or a photo nothing changes; otherwise an entry with both and the outfit goes in front |
| Workflow.MeasurementDeleted | App.tsx:1258-1262 | only the saved measurements change, and they keep exactly the entries with another id |
| Workflow.BackToHeight | App.tsx:1289 | the selection screen's back link returns to the height step |
| Workflow.BackToSelect | App.tsx:1303 | the back links of the measurements and customise screens (also line 1316) return to the selection step |
| Workflow.ErrorDismissed | App.tsx:1353 | the banner's close button clears the error and nothing else |
| Workflow.PreviewSynced | App.tsx:1082-1118 | the previous timer is cancelled; only on the selection step with a photo does an empty outfit show the photo at once, and any other outfit schedules a preview of its garments |
| Workflow.PreviewTimerFired | App.tsx:1100-1101 | a pending timer fires: the preview turns busy and its request goes out |
| Workflow.PreviewResolved | App.tsx:1102-1110 | the preview shows the new image as a PNG data URL, or the photo on failure; not busy afterwards |
| Workflow.ScreenOf | App.tsx:1264-1328 | `renderContent`: the generation view exactly on the generate step, the measuring view exactly while a measure call is pending; the height, selection, measurements, customise and result views only on their step and with the data they show (photo, analysis, non-empty generated image); the camera otherwise |
| Workflow.Apply | App.tsx:1264-1328 | one user action or service reply, acting only when the screen shows its control enabled: capture and upload on the camera, height on the height form, garments and "Get Measurements" (disabled with nothing selected, line 408) on the selection screen, generate and save on the measurements screen, finalize on the customise screen, save and start over on the result screen (start over also on the height form), the back links on their screens, the dismiss button when no call is pending; a measure or generate reply only while its loading view is shown |
| Workflow.ApplyConsistent | App.tsx:1264-1327 | every event of the model keeps the state consistent: slots hold their own category, every step past capture has a photo, customise and result have a generated image (the source can break this through a late reply, see `Workflow.Apply` under "## Left out") |
| Workflow.RunConsistent | App.tsx:1264-1327 | so does any sequence of the model's events |
| Workflow.Reachable | App.tsx:1049-1327 | every state the model reaches from mount is consistent; in the source a late reply can escape this (see `Workflow.Apply` under "## Left out") |
| Workflow.ApplyKeepsLooks | App.tsx:1208-1262 | an event other than saving or deleting a look leaves the saved looks alone |
| Workflow.RunKeepsLooks | App.tsx:1208-1262 | so does a sequence of such events, start-over included |
| Workflow.PendingCallLocksScreen | App.tsx:1266-1270 | while a measure or generate call is pending no screen control changes anything |
| Workflow.SelectTwice | App.tsx:1149-1154 | selecting the same garment twice restores the state when its slot was empty or held it |
| Workflow.SaveThenDeleteLook | App.tsx:1226-1243 | saving a look under a fresh id and deleting that id restores the state |
| Workflow.SaveThenDeleteMeasurements | App.tsx:1245-1262 | the same for measurements |
| Workflow.RunFirst | App.tsx:1264-1327 | a run is its first event followed by the rest |
| Workflow.RunAppend | App.tsx:1264-1327 | running two sequences one after the other is running them joined |
| Workflow.MeasureRejected | App.tsx:1169-1180 | a rejected measure call returns to the selection step, idle, with the error and the outfit and earlier analysis kept |
| Workflow.HappyPath | App.tsx:1120-1237 | photo, height, one garment, measurements, generation, finalise and save, every call succeeding, end on the result step, idle and without an error, with exactly one saved look holding the final image, the photo and the outfit |
| Workflow.ToSelection | App.tsx:1120-1154 | from mount, photo, height and one garment reach the selection step with that garment selected |
| Workflow.MeasureResolved | App.tsx:1156-1181 | measuring from the selection screen, with success, shows the analysis on the measure step |
| Workflow.GenerateResolved | App.tsx:1183-1201 | generating from the measurements screen, with success, reaches the customise step with the image |
| Workflow.MeasureAndGenerate | App.tsx:1156-1201 | both calls succeeding reach the customise step with the analysis and the image |
| Workflow.FinalizeAndSave | App.tsx:1203-1237 | finalising and saving puts exactly one look in front and changes nothing else but the step and the image |
| Studio.TryOnStudio.constructor | App.tsx:1049-1080 | the fields hold `Initial` |
| Studio.TryOnStudio.HandleImageCaptured | App.tsx:1120-1123 | performs `Captured` and keeps the class invariant |
| Studio.TryOnStudio.BeginImageUpload | App.tsx:1125-1128 | performs `UploadStarted` |
| Studio.TryOnStudio.FinishImageUpload | App.tsx:1129-1138 | performs `UploadFinished` |
| Studio.TryOnStudio.HandleHeightSubmitted | App.tsx:1141-1147 | performs `HeightSubmitted` |
| Studio.TryOnStudio.HandleSelectClothing | App.tsx:1149-1154 | performs `ClothingSelected` |
| Studio.TryOnStudio.BeginProceedToMeasure | App.tsx:1156-1171 | performs `MeasureStarted` and returns its request |
| Studio.TryOnStudio.FinishProceedToMeasure | App.tsx:1172-1180 | performs `MeasureFinished` |
| Studio.TryOnStudio.BeginProceedToGenerate | App.tsx:1183-1190 | performs `GenerateStarted` and returns its request |
| Studio.TryOnStudio.FinishProceedToGenerate | App.tsx:1191-1200 | performs `GenerateFinished` |
| Studio.TryOnStudio.HandleFinalize | App.tsx:1203-1206 | performs `Finalized` |
| Studio.TryOnStudio.HandleStartOver | App.tsx:1208-1219 | performs `StartedOver` |
| Studio.TryOnStudio.HandleItemCreated | App.tsx:1221-1224 | performs `ItemCreated` by prepending and then calling `HandleSelectClothing` |
| Studio.TryOnStudio.HandleSaveLook | App.tsx:1226-1237 | performs `LookSaved` |
| Studio.TryOnStudio.HandleDeleteLook | App.tsx:1239-1243 | performs `LookDeleted` |
| Studio.TryOnStudio.HandleSaveMeasurements | App.tsx:1245-1256 | performs `MeasurementsSaved` |
| Studio.TryOnStudio.HandleDeleteMeasurement | App.tsx:1258-1262 | performs `MeasurementDeleted` |
| Studio.TryOnStudio.GoBackToHeight | App.tsx:1289 | performs `BackToHeight` |
| Studio.TryOnStudio.GoBackToSelect | App.tsx:1303 | performs `BackToSelect` (also line 1316) |
| Studio.TryOnStudio.DismissError | App.tsx:1353 | performs `ErrorDismissed` |
| Studio.TryOnStudio.SyncPreview | App.tsx:1082-1118 | performs `PreviewSynced` |
| Studio.TryOnStudio.PreviewTimerFires | App.tsx:1100-1101 | performs `PreviewTimerFired` and returns its request |
| Studio.TryOnStudio.PreviewCallEnds | App.tsx:1102-1110 | performs `PreviewResolved` |
| Views.MeasurementsView.constructor | App.tsx:443 | not saved on mount |
| Views.MeasurementsView.Save | App.tsx:445-448 | the studio performs `MeasurementsSaved`, and the button is disabled from then on (line 505) |
| Views.ResultView.constructor | App.tsx:673 | not saved on mount |
| Views.ResultView.FinalImageChanged | App.tsx:675-677 | a different final image enables saving again; the same image keeps the flag |
| Views.ResultView.Save | App.tsx:688-691 | the studio performs `LookSaved`, the saved look holds the image on screen, and the button is disabled (line 715) |
| Views.NewItem | App.tsx:770-776 | the created garment has the given id, the chosen type and the whole prompt as description, and a name of at most 21 characters that is the prompt itself when short |
| Views.NewItemImageParts | App.tsx:774 | the created garment's JPEG data URL gives the generated image and "image/jpeg" back |
| Views.GenerateClothingModal.constructor | App.tsx:738-742 | empty prompt, type Top, idle, no error, no image |
| Views.GenerateClothingModal.InitialTypeChanged | App.tsx:744-748 | a category given by the opener becomes the chosen type; none keeps the type |
| Views.GenerateClothingModal.EditPrompt | App.tsx:803 | the prompt is the typed text |
| Views.GenerateClothingModal.ChooseType | App.tsx:810 | the type is the selected one |
| Views.GenerateClothingModal.BeginGenerate | App.tsx:750-757 | a request (the untrimmed prompt) goes out exactly when the prompt is not blank, and then the modal is busy with no error or image; a blank prompt only shows "Please enter a description for your clothing item." |
| Views.GenerateClothingModal.FinishGenerate | App.tsx:758-765 | the image is shown, or the error with fallback "An unknown error occurred."; idle either way |
| Views.GenerateClothingModal.Close | App.tsx:781-787 | prompt, busy flag, error and image are cleared; the type is kept |
| Views.GenerateClothingModal.UseItem | App.tsx:768-779 | without a non-empty image nothing happens; otherwise the studio performs `ItemCreated` with `NewItem` and the modal is cleared |

## Left out

- The camera (`WebcamCapture`: devices, countdown, canvas capture). A captured photo enters as the parameter of `CaptureImage`. `DataUrlRoundTrip` covers the JPEG data URL it is split from.
- `fileToBase64` and `URL.createObjectURL`: reading an uploaded file is I/O. Its result, or its failure, is the parameter of `FinishImageUpload`.
- `localStorage` and JSON. On mount, the stored lists are constructor parameters. Writing the lists back after a save or a delete is not modelled.
- The generation service (`generateMeasurements`, `generateOutfit`, `customizeOutfit`, `generateClothingItem`). Each call is a request going out and a `CallOutcome` coming back.
- Timers and interleaving:
  - the 800 ms debounce is modelled as an explicit `PreviewTimer` event, and the preview effect as a `SyncPreview` event that the environment sends after a render that changed the step, the photo or the outfit;
  - `Apply` ignores a control that the current screen does not show, or shows disabled;
  - the class's finish methods require the step that their start method entered.
- Workflow.Apply: a measure or generate reply is applied only while its loading view is shown. In the source the code after the `await` runs whatever happened meanwhile, for example when an upload started before the measure call finishes during it and moves the step back to height (App.tsx:1129-1138, 1172-1180, 1191-1200). The model drops such a late reply, so the analysis or image it carries, its error and its step change are not modelled. In the source such a reply can break the invariant that `Consistent`, `ApplyConsistent` and `Reachable` state: after an upload finishes during a pending measure call and "Retake Photo" starts over (App.tsx:1208-1213), a rejected measure call sets the step to select (App.tsx:1176-1177) and a late generate success sets it to customise (App.tsx:1193-1194), in both cases with no photo; `renderContent` then falls back to the camera.
- Studio.TryOnStudio: the hooks are fields, except two groups that are one record field each:
  - `clothingItems`, `savedLooks` and `savedMeasurements` form `collections`;
  - `previewImage`, `isPreviewLoading` and the debounce timer form `preview`.

  Every method is still proved against the full flat `Snapshot`.
- React's batching of setters within one handler and the stale closures of `useCallback`. Each method applies its updates in order to the current fields.
- The open flags of the modals (`creatingItemType`, `isLooksModalOpen`, `isMeasurementsModalOpen`): creating a garment and deleting a saved entry are therefore not tied to a screen.
- Rendering, styling, the download button, the home and contact pages, and the saved-items modals' markup.
- The cleanup of the preview effect on unmount.
- Strings are sequences of Unicode scalar values. JavaScript counts UTF-16 code units, so the 20-character name limit and `trim` differ from the source for characters outside the Basic Multilingual Plane.
- `parseInt` is modelled on unbounded integers, without double-precision rounding. Its "0x" prefix is handled.
- ImageHelpers.DataUrlToParts: a header with no ':' before a valid comma makes the source throw a `TypeError` (`split(':')[1]` is undefined). The model requires that this does not happen (`Parseable`), rather than modelling the crash.
- Three behaviours are modelled as the code has them, although a reader might expect otherwise:
  - customisation does not refuse a second request while one is pending (only the buttons are disabled);
  - a preview reply is not discarded when a newer selection has been made since;
  - the MIME type stops at the first ';' and also at a second ':'.
