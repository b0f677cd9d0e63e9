/** Values shared by the gallery operations: what `getimagesize` reports about an
    uploaded file, the errors the class raises, and the observable effects
    (directories created, PNG files written, the row inserted). */
module GalleryTypes {
  import opened Wrappers

  /** PHP's IMAGETYPE_* constants, as returned in index 2 of `getimagesize`. */
  const IMAGETYPE_GIF: int := 1
  const IMAGETYPE_JPEG: int := 2
  const IMAGETYPE_PNG: int := 3

  /** A successful `getimagesize` result: index 0 (width), 1 (height) and 2 (type).
      A result of FALSE is modelled as `None` of an `Option<ImageInfo>`. */
  datatype ImageInfo = ImageInfo(width: nat, height: nat, imageType: int)

  /** The exceptions the create path can end in. */
  datatype GalleryError =
    | UndeterminedImageType  // checkImage: getimagesize returned FALSE
    | UnsupportedImageType   // checkImage: type is not GIF, JPEG or PNG
    | GifTeaser              // createTeaserImage: a GIF upload
    | DivisionByZero         // createThumbnail: the teaser reports height 0
    | ZeroWidthThumbnail     // createThumbnail: imagecreatetruecolor refuses a width below 1

  /** The text of the exception raised for each error; distinct errors carry
      distinct texts. */
  function Message(e: GalleryError): (m: string)
    ensures m != ""
  {
    match e
    case UndeterminedImageType => "Unable to determine image type of uploaded file"
    case UnsupportedImageType => "Not a gif/jpeg/png"
    case GifTeaser => "Teaser image can't be a GIF, it has to be a JPEG or a PNG!"
    case DivisionByZero => "Division by zero"
    case ZeroWidthThumbnail => "imagecreatetruecolor(): Argument #1 ($width) must be greater than 0"
  }

  lemma MessagesDistinct(e1: GalleryError, e2: GalleryError)
    ensures Message(e1) == Message(e2) <==> e1 == e2
  {
    // the texts already differ in their first letter
    if Message(e1) == Message(e2) {
      assert Message(e1)[0] == Message(e2)[0];
    }
  }

  /** The `gallery` row bound by the INSERT of createGallery. */
  datatype GalleryRow = GalleryRow(
    author: int,
    status: bool,
    name: string,
    description: string,
    creationDate: string,
    modifiedDate: string,
    teaserImage: string,
    teaserImageThumbnail1: string,
    teaserImageThumbnail2: string,
    teaserImageThumbnail3: string)

  /** What the create path does to the world outside the model, in order. */
  datatype Effect =
    | MakeDir(dirPath: string, mode: nat, recursive: bool)
    | WritePng(filePath: string, width: nat, height: nat)
    | InsertGallery(row: GalleryRow)

  /** A run of an operation: the effects it performed, then how it ended. */
  datatype Run<T> = Run(effects: seq<Effect>, outcome: Result<T, GalleryError>)

  predicate Inserts(effects: seq<Effect>) {
    exists k :: 0 <= k < |effects| && effects[k].InsertGallery?
  }
}
