/** Optional values and results with an error, shared by every module of the model. */
module Wrappers {

  /** A value that may be absent: JavaScript's `undefined`, Java's `null`. */
  datatype Option<+T> = None | Some(value: T) {
    function GetOr(default: T): T {
      match this
      case Some(v) => v
      case None => default
    }
  }

  /** The errors the modelled code can raise. */
  datatype Error =
    | PlaceNotFound(id: string)          // IllegalArgumentException("Place not found: ...")
    | InvalidPlaceType(name: string)     // IllegalArgumentException("Invalid place type: ...")
    | UnknownEnumConstant(name: string)  // IllegalArgumentException from PlaceType.valueOf
    | IndexOutOfBounds(index: int)       // ArrayIndexOutOfBoundsException
    | NullPointer                        // NullPointerException
    | NoPlaceNamed(placeName: Option<string>) // IllegalArgumentException("No place found with name: ...")

  /** The outcome of a Java call that either returns or throws. */
  datatype Result<+R> = Ok(value: R) | Err(error: Error)
}
