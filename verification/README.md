# imagely gallery rules in Dafny

This project models the self-contained rules inside the `Gallery` class of the
imagely photo gallery (`core/Model/Gallery.class.php`). The class is a PHP data-access
object: most of its methods only run SQL. Interleaved with that plumbing are a few
rules with definite behaviour, and those are what is modelled and proved here:

- **Upload validation.** `checkImage` accepts GIF, JPEG and PNG. `createTeaserImage`
  also refuses GIF. `createGallery` runs both checks before anything is written.
- **Teaser and thumbnail layout.** Files go into `/data/media/gallery/{user}/{gallery}/`.
  The teaser is `teaserImage.png`. There are three thumbnail tiers (small, medium and
  large, of heights 100, 200 and 400), each `floor(width * tierHeight / height)` wide
  and named `teaserImage.<tier>.thumb.png`.
- **Ownership decision.** `checkIfOwnAccountOrRedirect` allows access when the id is
  strictly equal to one of the author's gallery ids, which it collects as strings, or
  when the user is an admin. Otherwise it sends a redirect header.
- **Luminance sampler.** `get_avg_luminance` unpacks the 8-bit channels, walks a
  sampling grid and averages `(2r + 3g + b) / 6`.

Modules, one per concern:

- `Wrappers`: `Option` and `Result`.
- `Decimal`: PHP's integer-to-string conversion.
- `GalleryTypes`: what `getimagesize` reports, the errors, the effects and the inserted row.
- `Upload`: `checkImage`.
- `Thumbnails`: the path scheme, the width formula and `createThumbnail`, which is a
  method with the source's `foreach` loop.
- `Creation`: `createTeaserImage` and `createGallery`, as functions that return their
  effects followed by either a value or an error.
- `Ownership`: the ownership check, a method with the source's `while` loop.
- `Luminance`: the sampler, a method with the source's nested `for` loops over an
  `array2<int>` of GD pixel values.

The class has no fields, so no Dafny class is needed.

Outside values are parameters of the model:

- the `getimagesize` result (`Option<ImageInfo>`, where `None` is FALSE);
- `$_SESSION['userId']`;
- the AUTO_INCREMENT value that `getNextGalleryId` reads;
- `DOCUMENT_ROOT`;
- whether the folder already exists;
- the ids that the ownership query returns;
- the value `User::isAdmin` returns;
- `htmlentities`, as a function parameter.

Outputs are effect values: directories created, PNG files written with their sizes,
the gallery row inserted, and the redirect header.

Where the code does less than its own doc comments say, the model follows the code:

- `createTeaserImage` documents `@throws Exception - If the given file is not an image`
  (`core/Model/Gallery.class.php:121`). Its only check refuses GIF; other types were
  already refused by `checkImage`.
- `checkIfOwnAccountOrRedirect` documents `@param int $id`
  (`core/Model/Gallery.class.php:319`). Its test is PHP's strict `in_array` against the
  ids collected as strings, so an id passed as an integer never matches, and such an
  id is allowed only for admins (`Ownership.IntegerIdNeverOwns`).
- `deleteGalleryByUser` is documented as deleting all galleries of a user
  (`core/Model/Gallery.class.php:251`). As written it does not (see Left out).
- `get_avg_luminance` documents sampling `$num_samples` times in both x and y directions
  (`core/Model/Gallery.class.php:345`). Each loop steps by `intval(size / $num_samples)`,
  so it takes ceil(size / step) samples in its direction. That is never fewer than
  `$num_samples`, and it is exactly `$num_samples` only when that number divides the size
  (`Luminance.SamplesPerDirection`). A 19-pixel side with 10 samples asked for gets 19
  (`Luminance.NineteenPixelsTenSamples`).

The model follows PHP 8 semantics. Integer division by zero with `/` throws
`DivisionByZeroError`, and GD's `imagecreatetruecolor` throws `ValueError` for a width
below 1.

## Model

| member | source | states |
|---|---|---|
| `GalleryTypes.Message` | core/Model/Gallery.class.php:123-171 | every error the create path raises carries a non-empty exception text: those of lines 127, 162 and 167, PHP's division-by-zero text, and GD's refusal of a zero width |
| `GalleryTypes.MessagesDistinct` | core/Model/Gallery.class.php:123-171 | two errors have the same text exactly when they are the same error |
| `Upload.CheckImage` | core/Model/Gallery.class.php:158-171 | FALSE from getimagesize gives "unable to determine", any type outside GIF/JPEG/PNG gives "not a gif/jpeg/png", and exactly GIF, JPEG and PNG return TRUE (each case as an if-and-only-if) |
| `Creation.CreateTeaserImage` | core/Model/Gallery.class.php:113-148 | a GIF fails with the GIF error and has no effects; otherwise the gallery folder is created, as the first effect, exactly when it is missing, and the teaser PNG is always written at the upload's size; the call succeeds exactly for a non-GIF whose height is non-zero and whose smallest thumbnail is at least one pixel wide, and then the three thumbnail writes follow the teaser; if the thumbnails fail, only the teaser was written, with division by zero for a zero height and GD's refusal for a zero width; no effect besides the folder creation and the PNG writes; on success it returns the teaser path and the thumbnail array of the user/gallery folder; it never inserts a row |
| `Creation.CreateGallery` | core/Model/Gallery.class.php:80-111 | succeeds exactly for a JPEG or PNG of non-zero height whose 100-pixel thumbnail is at least one pixel wide; FALSE, a non-image type and a GIF each fail with their own error and no effects at all; a failure inserts no row; past checkImage the run is createTeaserImage's: when that fails (a zero height or a zero thumbnail width), its error is raised unchanged and its folder creation and teaser write stay in place, and when it succeeds the effects are exactly its own followed by one insert of the returned row; that row carries the author, status, entity-encoded name and description, the dates, the teaser path and the small/medium/large thumbnail paths of the gallery folder |
| `Creation.CreateGalleryWritesFourFiles` | core/Model/Gallery.class.php:123-148 | a created gallery writes exactly four PNG files: the teaser at the upload's size, then thumbnails of heights 100, 200 and 400 whose widths follow the floor formula |
| `Creation.NarrowPngLeavesTeaser` | core/Model/Gallery.class.php:91-108 | a 1x200 PNG ends with GD's zero-width error after the folder (when missing) and the teaser have been written, and inserts no row |
| `Creation.TeaserFilePaths` | core/Model/Gallery.class.php:103-106 | the four paths stored in a created row are `teaserImage.png` and `teaserImage.small.thumb.png`, `teaserImage.medium.thumb.png`, `teaserImage.large.thumb.png` inside the gallery folder |
| `Creation.TeaserPathsCollideIff` | core/Model/Gallery.class.php:129-135 | two successful creates get the same teaser path exactly when they share the session user and the AUTO_INCREMENT value read, so two requests of the same user that read the same counter write into the same folder |
| `Thumbnails.CreateThumbnail` | core/Model/Gallery.class.php:183-216 | the foreach over the tiers returns the ordered thumbnail array and writes one resized PNG per tier; a zero height throws division by zero, and a smallest thumbnail narrower than one pixel makes `imagecreatetruecolor` throw, both before anything is written; it fails exactly when, and with the error that, `ThumbnailFailure` names, which is the same case split `CreateTeaserImage` uses |
| `Thumbnails.FitsIffAllTiersWide` | core/Model/Gallery.class.php:196-206 | the height is non-zero and `width * 100 >= height` exactly when the small thumbnail, and equally every tier's thumbnail, is at least one pixel wide, which is what `imagecreatetruecolor` demands |
| `Thumbnails.ThumbWidth` | core/Model/Gallery.class.php:198 | the width is the floor of width * tierHeight / height: `w * height <= width * tierHeight < (w + 1) * height` |
| `Thumbnails.ThumbWidthMonotone` | core/Model/Gallery.class.php:198 | for a fixed source, a taller tier never gives a narrower thumbnail |
| `Thumbnails.ThumbWidthAtOwnHeight` | core/Model/Gallery.class.php:198 | scaling to the source's own height keeps the source's width |
| `Thumbnails.ThumbWidthExactBounds` | core/Model/Gallery.class.php:198 | the width never exceeds the exact proportional width and is less than one pixel below it |
| `Thumbnails.EntriesShape` | core/Model/Gallery.class.php:191-212 | the array has exactly the keys small, medium and large, in that order, and each path is `path + name + "." + tier + ".thumb.png"` |
| `Thumbnails.EntriesDistinctUnderFolder` | core/Model/Gallery.class.php:197-212 | the three thumbnail paths all start with the folder and are pairwise distinct |
| `Thumbnails.TeaserDistinctFromThumbnails` | core/Model/Gallery.class.php:135-140 | no thumbnail overwrites the teaser PNG in the same folder |
| `Thumbnails.WritesGeometry` | core/Model/Gallery.class.php:196-212 | the three files written have heights 100, 200 and 400, floor-formula widths that do not decrease from tier to tier, and the returned paths under the document root |
| `Thumbnails.FolderPathInjective` | core/Model/Gallery.class.php:132 | different (user, gallery) pairs never share a folder |
| `Thumbnails.TeaserPathShape` | core/Model/Gallery.class.php:132-135 | the teaser path is `/data/media/gallery/{user}/{gallery}/teaserImage.png` and the folder ends in the separator |
| `Decimal.NatToStringInjective` | core/Model/Gallery.class.php:330 | distinct ids convert to distinct strings |
| `Ownership.CheckIfOwnAccountOrRedirect` | core/Model/Gallery.class.php:324-338 | allows exactly when the id is strictly equal to one of the author's ids as strings, or isAdmin returns 1; a redirect header with the given URL is produced exactly when it refuses |
| `Ownership.StringIdOwnsIff` | core/Model/Gallery.class.php:329-332 | an id given as a decimal string matches exactly when that number is one of the author's gallery ids |
| `Ownership.OwnGalleryAllowed` | core/Model/Gallery.class.php:332 | the owner's own gallery id, as a string, always matches |
| `Ownership.IntegerIdNeverOwns` | core/Model/Gallery.class.php:332 | under the strict comparison an id passed as an integer never matches |
| `Luminance.Red` | core/Model/Gallery.class.php:367 | the red channel lies in 0..255 |
| `Luminance.Green` | core/Model/Gallery.class.php:368 | the green channel lies in 0..255 |
| `Luminance.Blue` | core/Model/Gallery.class.php:369 | the blue channel lies in 0..255 |
| `Luminance.LumNumerator` | core/Model/Gallery.class.php:373 | `2r + 3g + b` lies in 0..1530; it is 1530 exactly for white and 0 exactly for black |
| `Luminance.ChannelsOfPacked` | core/Model/Gallery.class.php:366-369 | the unpacking recovers r, g and b from a packed truecolor pixel, whatever its alpha |
| `Luminance.Step` | core/Model/Gallery.class.php:356-357 | the step is positive exactly when the sample count is positive and at most the size; for a positive count it is the floor of size / count |
| `Luminance.CountFrom` | core/Model/Gallery.class.php:363-364 | a loop from `start` takes no sample exactly when `start` is already at the bound |
| `Luminance.ColumnSum` | core/Model/Gallery.class.php:364-380 | the inner loop's numerator sum is between 0 and 1530 times its number of samples |
| `Luminance.GridSum` | core/Model/Gallery.class.php:363-381 | the outer loop's numerator sum is between 0 and 1530 times its number of samples |
| `Luminance.CountFromClosedForm` | core/Model/Gallery.class.php:363-364 | a loop from `start` with a positive step takes exactly ceil((bound - start) / step) samples |
| `Luminance.SamplesPerDirection` | core/Model/Gallery.class.php:345-364 | with a positive step each loop takes at least `$num_samples` samples, and exactly `$num_samples` if and only if that number divides the size |
| `Luminance.NineteenPixelsTenSamples` | core/Model/Gallery.class.php:345-364 | a 19-pixel side sampled with `$num_samples = 10` has step 1 and gets 19 samples, not 10 |
| `Luminance.GridCountIsProduct` | core/Model/Gallery.class.php:363-381 | the loops take one sample per column stride times one per row stride |
| `Luminance.CounterAverage` | core/Model/Gallery.class.php:384 | dividing the sum of `count` luminances by `count + 1` gives a value in [0, 255) |
| `Luminance.AsWrittenAverage` | core/Model/Gallery.class.php:359-386 | the result lies in [0, 255) and equals the sum of the sampled luminances divided by the number of samples + 1 |
| `Luminance.GetAvgLuminance` | core/Model/Gallery.class.php:349-387 | zero samples throws division by zero; the call never returns exactly when a loop that runs has a non-positive step; otherwise it returns the as-written average |
| `Luminance.IntendedAverage` | core/Model/Gallery.class.php:384 | the corrected average, the sum divided by the number of samples, lies in [0, 255] |
| `Luminance.UniformImageAverages` | core/Model/Gallery.class.php:384 | on a uniform image the corrected average is exactly the pixels' luminance, while the as-written one is samples / (samples + 1) of it |
| `Luminance.AsWrittenBelowIntended` | core/Model/Gallery.class.php:361-384 | unless every sample is black, the as-written average is strictly below the corrected one; when every sample is black both are 0 |
| `Luminance.WhitePixelCounterexample` | core/Model/Gallery.class.php:361-384 | a single white pixel sampled once averages 127.5 as written, against 255 corrected |

## Findings

| source | as written | input that shows it | evidently intended | confidence | as-written member | corrected member |
|---|---|---|---|---|---|---|
| core/Model/Gallery.class.php:361-384 | `$sample_no` starts at 1 and is incremented once per sample, so the sum is divided by the number of samples + 1 | a 1x1 truecolor white PNG with `$num_samples = 1`: one sample of luminance 255, result 127.5 | the mean of the sampled luminances, which is 255 for that image | high, not executed | `Luminance.WhitePixelCounterexample` (with `Luminance.AsWrittenAverage`, `Luminance.AsWrittenBelowIntended`) | `Luminance.IntendedAverage` (with `Luminance.UniformImageAverages`) |

`Luminance.GetAvgLuminance` models the code as written, so it returns `AsWrittenAverage`.

## Left out

- SQL access through the global connection is not modelled. This covers `getAll`, `getAllByAuthor`, `getAvailableGalleries`, `editGallery`, `deleteGalleryById`, `getGalleryById`, `getImageByGalleryId`, `getNextGalleryId`, and the query in `checkIfOwnAccountOrRedirect`. These calls are I/O against a database outside the model. Their results enter the model as parameters: the AUTO_INCREMENT value and the author's gallery ids.
- `deleteGalleryByUser` is not modelled. As written it reads `'id'` from the list of all rows returned by `fetchAll`, not from each row, so it does not delete every gallery of the author.
- GD calls are not modelled: `imagecreatefromstring`, `imagepng`, `imagecreatetruecolor`, `imagecopyresized`, `imagecolorat`, `imagecreatefrompng`, and the loader whose name is built from `image_type_to_extension`. Dimensions, type and pixels are inputs. Only one GD behaviour is kept: `imagecreatetruecolor` refuses a width of 0. In the model that width is the exact one (see the lines on floating point below), and the refusal ends createThumbnail with `ZeroWidthThumbnail` before any thumbnail is written.
- The teaser PNG is assumed to keep the upload's width and height, because `createThumbnail` reads the teaser's size back with `getimagesize`. So the model's `DivisionByZero` outcome after a teaser write of height 0 rests on this assumption. In PHP, GD refuses an image of height 0 when it loads or writes the teaser (`imagecreatefromstring`/`imagepng`, line 139), so such an upload fails before any teaser exists.
- Both `getimagesize` calls on the upload are assumed to report the same result.
- `CreateTeaserImage` takes an `ImageInfo` that is already determined. It is reached only after `checkImage` has refused FALSE, so the path where `$info` is FALSE (where `$info[2]` is null) is not represented.
- Filesystem work is not modelled: `mkdir`, `is_dir` and `file_get_contents`. A directory creation is an effect; whether the folder exists is an input.
- `$_SESSION['userId']` is taken as a natural number. `DIRECTORY_SEPARATOR` is taken as `/`.
- `htmlentities` is a function parameter. `html_entity_decode` belongs to the read operations, which are left out.
- DateTime conversion and formatting depend on the library and the configured time zone, so they are not modelled.
- `Thumbnails.ThumbWidth`: computed in exact integer arithmetic. PHP evaluates `$width * ($new_thumb_height / $height)` in IEEE doubles, so at a whole number `floor` can give one less than the exact value. For a 49×4900 upload, `49 * (100 / 4900)` is 0.9999999999999999 in doubles, so PHP gets 0 where the model gets 1. Among widths below 2000 at an exact 1:100 ratio, 216 behave like this.
- `Thumbnails.CreateThumbnail`: its success condition `FitsSmallestTier` (`width * 100 >= height`) is exact arithmetic. When `width * 100 == height`, PHP can compute a small width of 0 and have `imagecreatetruecolor` throw, as for 49×4900, where the model succeeds and writes three thumbnails.
- `Creation.CreateTeaserImage`: it succeeds exactly when `FitsSmallestTier` holds in exact arithmetic. PHP refuses some uploads with `width * 100 == height`, such as 49×4900, after writing the teaser.
- `Creation.CreateGallery`: its success condition `Accepted` is exact arithmetic. For some uploads with `width * 100 == height`, such as a 49×4900 PNG, PHP throws in createThumbnail after writing the teaser and inserts no row, where the model creates the gallery.
- `Creation.CreateGalleryWritesFourFiles`: the four files are promised for every upload `Accepted` admits. For some uploads with `width * 100 == height`, such as 49×4900, PHP writes only the teaser before GD throws.
- `Luminance.AsWrittenAverage`: computed with exact reals. PHP sums floats, so the last bits of the result can differ.
- PHP's 64-bit integer limits are not modelled. Pixel values and sizes are unbounded integers. The channel functions agree with PHP's shift-and-mask for every 64-bit value.
- PHP 7 is not modelled. There, `/` by zero only warns and returns INF, so zero samples would make `get_avg_luminance` loop forever, and zero height would make createThumbnail compute an infinite width instead of throwing.
- The default `$num_samples = 10` of `get_avg_luminance` is not represented. `Luminance.GetAvgLuminance` always takes the number of samples as a parameter; the default only matters to callers that omit the argument.
- `imagecolorat` on a palette image returns a palette index, not an RGB value. That is not modelled: pixels are taken as GD truecolor values.
- `User::isAdmin` and `header()` are outside the model. Their result and effect are a parameter and an optional header value.
