/** The records and unions of types.ts as Dafny datatypes. */
module Types {
  import opened Basics

  /** `ClothingItem['type']`: the closed set of garment categories. */
  datatype ClothingType = Top | Pants | Shoes | Accessory

  /** Every category, in the key order of `SelectedOutfit` and of the selection screen. */
  const AllCategories: seq<ClothingType> := [Top, Pants, Shoes, Accessory]

  /** The position of a category in `AllCategories`. */
  function Rank(t: ClothingType): (k: nat)
    ensures k < |AllCategories| && AllCategories[k] == t
  {
    match t
    case Top => 0
    case Pants => 1
    case Shoes => 2
    case Accessory => 3
  }

  /** A garment; `category` is the TypeScript field `type`. */
  datatype ClothingItem = ClothingItem(id: int, name: string, category: ClothingType, imageUrl: string, description: string)

  /** The seven steps of the try-on workflow. */
  datatype AppStep = Capture | Height | Select | Measure | Generate | Customize | Result

  const AllSteps: seq<AppStep> := [Capture, Height, Select, Measure, Generate, Customize, Result]

  /** The user's photo: base64 payload, its MIME type and a URL the page can display. */
  datatype UserImage = UserImage(base64: string, mimeType: string, url: string)

  /**
   * One slot per category, each empty or holding one garment. Because it is a record with four
   * fields, no category key can ever be missing.
   */
  datatype SelectedOutfit = SelectedOutfit(top: Option<ClothingItem>, pants: Option<ClothingItem>,
                                           shoes: Option<ClothingItem>, accessory: Option<ClothingItem>)
  {
    /** `outfit[t]` */
    function Get(t: ClothingType): Option<ClothingItem> {
      match t
      case Top => top
      case Pants => pants
      case Shoes => shoes
      case Accessory => accessory
    }

    /** `{ ...outfit, [t]: v }` */
    function With(t: ClothingType, v: Option<ClothingItem>): (r: SelectedOutfit)
      ensures r.Get(t) == v
      ensures forall u :: u != t ==> r.Get(u) == Get(u)
    {
      match t
      case Top => this.(top := v)
      case Pants => this.(pants := v)
      case Shoes => this.(shoes := v)
      case Accessory => this.(accessory := v)
    }
  }

  /** `INITIAL_OUTFIT`: every slot empty. */
  const EmptyOutfit := SelectedOutfit(None, None, None, None)

  datatype SavedLook = SavedLook(id: int, finalImage: string, originalImage: UserImage, selectedOutfit: SelectedOutfit)

  datatype Measurement = Measurement(name: string, value: string)

  datatype PersonMeasurements = PersonMeasurements(measurements: seq<Measurement>, notes: string)

  datatype GarmentFit = GarmentFit(itemName: string, itemType: ClothingType, fitDescription: string,
                                   garmentMeasurements: seq<Measurement>)

  datatype FitAnalysis = FitAnalysis(personMeasurements: PersonMeasurements, clothingFit: seq<GarmentFit>)

  datatype SavedMeasurement = SavedMeasurement(id: int, fitAnalysis: FitAnalysis, userImage: UserImage,
                                               selectedOutfit: SelectedOutfit)

  /** The step union has exactly seven distinct values and `AllSteps` lists every one of them. */
  lemma StepsAreSeven(s: AppStep)
    ensures s in AllSteps
    ensures |AllSteps| == 7
    ensures forall i, j :: 0 <= i < j < |AllSteps| ==> AllSteps[i] != AllSteps[j]
  {
  }

  /** Two outfits that agree on every category are the same outfit. */
  lemma {:induction false} OutfitExtensional(a: SelectedOutfit, b: SelectedOutfit)
    requires forall t :: a.Get(t) == b.Get(t)
    ensures a == b
  {
    assert a.Get(Top) == b.Get(Top) && a.Get(Pants) == b.Get(Pants);
    assert a.Get(Shoes) == b.Get(Shoes) && a.Get(Accessory) == b.Get(Accessory);
  }
}
