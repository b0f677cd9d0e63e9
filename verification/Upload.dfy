/** Validation of an uploaded image (Gallery::checkImage). */
module Upload {
  import opened Wrappers
  import opened GalleryTypes

  predicate IsGifJpegOrPng(t: int) {
    t == IMAGETYPE_GIF || t == IMAGETYPE_JPEG || t == IMAGETYPE_PNG
  }

  /** checkImage: FALSE from getimagesize raises one error, a type outside
      GIF/JPEG/PNG another; otherwise the check returns TRUE. */
  function CheckImage(info: Option<ImageInfo>): (r: Result<bool, GalleryError>)
    ensures r == Failure(UndeterminedImageType) <==> info.None?
    ensures r == Failure(UnsupportedImageType) <==> info.Some? && !IsGifJpegOrPng(info.value.imageType)
    ensures r == Success(true) <==> info.Some? && IsGifJpegOrPng(info.value.imageType)
    ensures r.Success? ==> r.value
  {
    match info
    case None => Failure(UndeterminedImageType)
    case Some(i) =>
      if i.imageType != IMAGETYPE_GIF && i.imageType != IMAGETYPE_JPEG && i.imageType != IMAGETYPE_PNG
      then Failure(UnsupportedImageType)
      else Success(true)
  }
}
