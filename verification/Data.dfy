/** The catalog record and the enumerations the Shrine screens share.

    Data.kt in this repository still declares an older `HomeCardData` and a
    `Category` without `All`; the screens use `ItemData` with a price, a vendor, a
    category and a photo orientation, and a `Category.All`. This module
    declares the types as the screens use them. */
module ShrineData {

  datatype Option<T> = None | Some(value: T)

  /** Product grouping; `All` is the navigation entry that shows every item. */
  datatype Category = Accessories | Clothing | Home | All

  datatype Vendor = Alphi | Lmb | Mal | Six | Squiggle

  /** Only `Portrait` is referenced by the screens; `Landscape` stands for every other orientation. */
  datatype PhotoOrientation = Portrait | Landscape

  /** A catalog item. Title and photo are display resources and are not modelled. */
  datatype ItemData = ItemData(price: int, vendor: Vendor, category: Category, photoOrientation: PhotoOrientation)

  /** The enum constant's declared name, which is what Kotlin's string template prints. */
  function VendorName(v: Vendor): string
  {
    match v
    case Alphi => "Alphi"
    case Lmb => "Lmb"
    case Mal => "Mal"
    case Six => "Six"
    case Squiggle => "Squiggle"
  }

  function CategoryName(c: Category): string
  {
    match c
    case Accessories => "Accessories"
    case Clothing => "Clothing"
    case Home => "Home"
    case All => "All"
  }
}

/** Animation specifications reduced to what the model keeps of a `tween`:
    its duration and its start delay, in milliseconds. Easing curves and the
    interpolation itself are not modelled. */
module Motion {

  datatype Tween = Tween(durationMillis: nat, delayMillis: nat)
  {
    /** Milliseconds from the start of the transition until this animation settles. */
    function Settles(): nat { delayMillis + durationMillis }
  }
}
