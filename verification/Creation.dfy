/** The create path: Gallery::createGallery and the private
    Gallery::createTeaserImage it drives. Database reads, the session and the
    filesystem are inputs (`Environment`); what the path does to the outside
    world is its list of effects. */
module Creation {
  import opened Wrappers
  import opened GalleryTypes
  import opened Upload
  import opened Thumbnails

  /** The `$data` array createGallery receives, without the upload itself. */
  datatype GalleryRequest = GalleryRequest(
    author: int,
    status: bool,
    name: string,
    description: string,
    creationDate: string,
    modifiedDate: string)

  /** What createTeaserImage returns: the teaser path and the thumbnail array. */
  datatype Teaser = Teaser(imagePath: string, imageThumbnailPath: seq<(string, string)>)

  /** The values the create path reads from outside: `$_SESSION['userId']`, the
      table's AUTO_INCREMENT counter (getNextGalleryId), DOCUMENT_ROOT and
      whether the gallery folder already exists (is_dir). */
  datatype Environment = Environment(
    sessionUserId: nat,
    nextGalleryId: nat,
    documentRoot: string,
    folderExists: bool)

  /** The octal mode 0755 given to mkdir. */
  const FOLDER_MODE: nat := 493

  function GalleryFolder(env: Environment): string {
    FolderPath(env.sessionUserId, env.nextGalleryId)
  }

  /** The mkdir createTeaserImage issues for a missing gallery folder. */
  function FolderCreation(env: Environment): Effect {
    MakeDir(env.documentRoot + GalleryFolder(env), FOLDER_MODE, true)
  }

  /** The full-size teaser PNG createTeaserImage writes. */
  function TeaserWrite(info: ImageInfo, env: Environment): Effect {
    WritePng(env.documentRoot + TeaserPath(GalleryFolder(env)), info.width, info.height)
  }

  /** createTeaserImage for an upload that checkImage already accepted: a GIF is
      refused before anything happens; otherwise the folder is created when
      missing, the upload is written as `teaserImage.png` and createThumbnail
      runs on it (a zero height or a zero thumbnail width fails there, after the
      teaser was written). */
  function CreateTeaserImage(info: ImageInfo, env: Environment): (run: Run<Teaser>)
    ensures run.outcome == Failure(GifTeaser) <==> info.imageType == IMAGETYPE_GIF
    ensures info.imageType == IMAGETYPE_GIF ==> run.effects == []
    ensures run.outcome.Success? <==> info.imageType != IMAGETYPE_GIF && FitsSmallestTier(info.width, info.height)
    // the thumbnails' exception: division by zero for a zero height, GD's refusal for a zero width
    ensures info.imageType != IMAGETYPE_GIF && info.height == 0 ==> run.outcome == Failure(DivisionByZero)
    ensures info.imageType != IMAGETYPE_GIF && info.height > 0 && !FitsSmallestTier(info.width, info.height) ==>
      run.outcome == Failure(ZeroWidthThumbnail)
    // nothing happens besides the folder creation and the PNG writes
    ensures info.imageType != IMAGETYPE_GIF ==>
      run.effects == (if env.folderExists then [] else [FolderCreation(env)]) + PngWrites(run.effects)
    // the gallery folder is created, first, exactly when it is missing
    ensures info.imageType != IMAGETYPE_GIF ==> (FolderCreation(env) in run.effects <==> !env.folderExists)
    ensures info.imageType != IMAGETYPE_GIF && !env.folderExists ==> run.effects[0] == FolderCreation(env)
    // the teaser is always written; the thumbnails follow only when they all fit
    ensures info.imageType != IMAGETYPE_GIF && !FitsSmallestTier(info.width, info.height) ==>
      PngWrites(run.effects) == [TeaserWrite(info, env)]
    ensures run.outcome.Success? ==>
      PngWrites(run.effects) == [TeaserWrite(info, env)] + ThumbnailWrites(env.documentRoot, TEASER_NAME, GalleryFolder(env), info.width, info.height)
    ensures run.outcome.Success? ==>
      && run.outcome.value.imagePath == TeaserPath(GalleryFolder(env))
      && run.outcome.value.imageThumbnailPath == ThumbnailEntries(TEASER_NAME, GalleryFolder(env))
    ensures !Inserts(run.effects)
  {
    if info.imageType == IMAGETYPE_GIF then
      Run([], Failure(GifTeaser))
    else
      var folderPath := FolderPath(env.sessionUserId, env.nextGalleryId);
      var finalImagePath := folderPath + TEASER_NAME + ".png";
      var makeDir := if env.folderExists then [] else [MakeDir(env.documentRoot + folderPath, FOLDER_MODE, true)];
      var teaserWrite := [WritePng(env.documentRoot + finalImagePath, info.width, info.height)];
      match ThumbnailFailure(info.width, info.height)
      case Some(e) =>
        TeaserEffects(makeDir, teaserWrite);
        Run(makeDir + teaserWrite, Failure(e))
      case None =>
        var files := teaserWrite + ThumbnailWrites(env.documentRoot, TEASER_NAME, folderPath, info.width, info.height);
        TeaserEffects(makeDir, files);
        Run(makeDir + files, Success(Teaser(finalImagePath, ThumbnailEntries(TEASER_NAME, folderPath))))
  }

  /** The effect list of createTeaserImage: an optional mkdir, then PNG writes. */
  lemma TeaserEffects(makeDir: seq<Effect>, files: seq<Effect>)
    requires forall k :: 0 <= k < |makeDir| ==> makeDir[k].MakeDir?
    requires forall k :: 0 <= k < |files| ==> files[k].WritePng?
    ensures PngWrites(makeDir + files) == files
    ensures forall e :: e in makeDir + files && e.MakeDir? ==> e in makeDir
    ensures !Inserts(makeDir + files)
  {
    PngWritesAppend(makeDir, files);
    PngWritesNone(makeDir);
    PngWritesOfFiles(files);
    OnlyDirsThenFiles(makeDir, files);
  }

  lemma OnlyDirsThenFiles(makeDir: seq<Effect>, files: seq<Effect>)
    requires forall k :: 0 <= k < |makeDir| ==> makeDir[k].MakeDir?
    requires forall k :: 0 <= k < |files| ==> files[k].WritePng?
    ensures forall e :: e in makeDir + files && e.MakeDir? ==> e in makeDir
    ensures !Inserts(makeDir + files)
  {
  }

  /** The row createGallery binds for a request and a generated teaser. */
  function RowOf(req: GalleryRequest, htmlEntities: string -> string, teaser: Teaser): GalleryRow
    requires |teaser.imageThumbnailPath| == 3
  {
    GalleryRow(req.author, req.status, htmlEntities(req.name), htmlEntities(req.description),
               req.creationDate, req.modifiedDate, teaser.imagePath,
               teaser.imageThumbnailPath[0].1, teaser.imageThumbnailPath[1].1, teaser.imageThumbnailPath[2].1)
  }

  /** The uploads createGallery turns into a gallery: a JPEG or a PNG whose
      thumbnails are all at least one pixel wide. */
  predicate Accepted(info: Option<ImageInfo>) {
    && info.Some? && (info.value.imageType == IMAGETYPE_JPEG || info.value.imageType == IMAGETYPE_PNG)
    && FitsSmallestTier(info.value.width, info.value.height)
  }

  /** createGallery: checkImage, then createTeaserImage, then the INSERT.
      `info` is what getimagesize reports for the upload (both calls read the
      same file); `htmlEntities` is PHP's htmlentities. */
  function CreateGallery(req: GalleryRequest, info: Option<ImageInfo>, env: Environment, htmlEntities: string -> string)
    : (run: Run<GalleryRow>)
    // only JPEG and PNG uploads whose thumbnails all fit produce a gallery
    ensures run.outcome.Success? <==> Accepted(info)
    // each validation failure raises its own error before anything is done
    ensures info.None? ==> run == Run([], Failure(UndeterminedImageType))
    ensures info.Some? && !IsGifJpegOrPng(info.value.imageType) ==> run == Run([], Failure(UnsupportedImageType))
    ensures info.Some? && info.value.imageType == IMAGETYPE_GIF ==> run == Run([], Failure(GifTeaser))
    // past checkImage, the run is createTeaserImage's: its error and its effects
    // unchanged on failure, its effects followed by the insert on success
    ensures info.Some? && IsGifJpegOrPng(info.value.imageType) ==>
      var t := CreateTeaserImage(info.value, env);
      && (t.outcome.Failure? ==> run == Run(t.effects, Failure(t.outcome.error)))
      && (t.outcome.Success? ==> run.effects == t.effects + [InsertGallery(run.outcome.value)])
    // a failed run inserts no row
    ensures run.outcome.Failure? ==> !Inserts(run.effects)
    // a successful run ends with the insert of the row it returns, and inserts nothing before
    ensures run.outcome.Success? ==>
      && |run.effects| > 0
      && run.effects[|run.effects| - 1] == InsertGallery(run.outcome.value)
      && !Inserts(run.effects[..|run.effects| - 1])
    ensures run.outcome.Success? ==>
      var row, folder := run.outcome.value, GalleryFolder(env);
      && row.author == req.author && row.status == req.status
      && row.name == htmlEntities(req.name) && row.description == htmlEntities(req.description)
      && row.creationDate == req.creationDate && row.modifiedDate == req.modifiedDate
      && row.teaserImage == TeaserPath(folder)
      && row.teaserImageThumbnail1 == ThumbnailEntries(TEASER_NAME, folder)[0].1
      && row.teaserImageThumbnail2 == ThumbnailEntries(TEASER_NAME, folder)[1].1
      && row.teaserImageThumbnail3 == ThumbnailEntries(TEASER_NAME, folder)[2].1
  {
    match CheckImage(info)
    case Failure(e) => Run([], Failure(e))
    case Success(_) =>
      var teaser := CreateTeaserImage(info.value, env);
      match teaser.outcome
      case Failure(e) => Run(teaser.effects, Failure(e))
      case Success(t) =>
        var row := RowOf(req, htmlEntities, t);
        var effects := teaser.effects + [InsertGallery(row)];
        assert effects[..|effects| - 1] == teaser.effects;
        Run(effects, Success(row))
  }

  /** A 1x200 PNG: the folder and the teaser are written, then GD refuses the
      zero-width small thumbnail; nothing cleans them up and no row is inserted. */
  lemma NarrowPngLeavesTeaser(req: GalleryRequest, env: Environment, htmlEntities: string -> string)
    ensures CreateGallery(req, Some(ImageInfo(1, 200, IMAGETYPE_PNG)), env, htmlEntities)
         == Run((if env.folderExists then [] else [FolderCreation(env)]) + [TeaserWrite(ImageInfo(1, 200, IMAGETYPE_PNG), env)],
                Failure(ZeroWidthThumbnail))
  {
    var info := ImageInfo(1, 200, IMAGETYPE_PNG);
    var t := CreateTeaserImage(info, env);
    assert t.outcome == Failure(ZeroWidthThumbnail);
  }

  /** The four paths a created gallery's row stores, written out for a folder. */
  lemma TeaserFilePaths(folder: string)
    ensures TeaserPath(folder) == folder + "teaserImage.png"
    ensures ThumbnailEntries(TEASER_NAME, folder)[0].1 == folder + "teaserImage.small.thumb.png"
    ensures ThumbnailEntries(TEASER_NAME, folder)[1].1 == folder + "teaserImage.medium.thumb.png"
    ensures ThumbnailEntries(TEASER_NAME, folder)[2].1 == folder + "teaserImage.large.thumb.png"
  {
    var r := ThumbnailEntries(TEASER_NAME, folder);
    assert r[0].1 == folder + ThumbName(TEASER_NAME, TIERS[0]);
    assert r[1].1 == folder + ThumbName(TEASER_NAME, TIERS[1]);
    assert r[2].1 == folder + ThumbName(TEASER_NAME, TIERS[2]);
    assert ThumbName(TEASER_NAME, TIERS[0]) == "teaserImage.small.thumb.png";
    assert ThumbName(TEASER_NAME, TIERS[1]) == "teaserImage.medium.thumb.png";
    assert ThumbName(TEASER_NAME, TIERS[2]) == "teaserImage.large.thumb.png";
  }

  // ---------------------------------------------------------------------------
  // Files written

  /** The PNG files of a run, in the order they are written. */
  function PngWrites(effects: seq<Effect>): (w: seq<Effect>)
    ensures forall k :: 0 <= k < |w| ==> w[k].WritePng?
  {
    if effects == [] then []
    else if effects[0].WritePng? then [effects[0]] + PngWrites(effects[1..])
    else PngWrites(effects[1..])
  }

  lemma {:induction false} PngWritesAppend(a: seq<Effect>, b: seq<Effect>)
    ensures PngWrites(a + b) == PngWrites(a) + PngWrites(b)
  {
    if a == [] {
      assert a + b == b;
    } else {
      assert (a + b)[1..] == a[1..] + b;
      PngWritesAppend(a[1..], b);
    }
  }

  lemma {:induction false} PngWritesNone(s: seq<Effect>)
    requires forall k :: 0 <= k < |s| ==> !s[k].WritePng?
    ensures PngWrites(s) == []
  {
    if s != [] {
      PngWritesNone(s[1..]);
    }
  }

  lemma {:induction false} PngWritesOfFiles(s: seq<Effect>)
    requires forall k :: 0 <= k < |s| ==> s[k].WritePng?
    ensures PngWrites(s) == s
  {
    if s != [] {
      PngWritesOfFiles(s[1..]);
      assert s == [s[0]] + s[1..];
    }
  }

  /** A created gallery comes with exactly four files: the teaser at the upload's
      size, then the thumbnails of heights 100, 200 and 400, each of the width
      floor(width * tierHeight / height). */
  lemma CreateGalleryWritesFourFiles(req: GalleryRequest, info: Option<ImageInfo>, env: Environment, htmlEntities: string -> string)
    requires Accepted(info)
    ensures var w := PngWrites(CreateGallery(req, info, env, htmlEntities).effects);
      var i := info.value;
      && |w| == 4
      && w[0] == WritePng(env.documentRoot + TeaserPath(GalleryFolder(env)), i.width, i.height)
      && w[1].height == 100 && w[2].height == 200 && w[3].height == 400
      && (forall k :: 1 <= k < 4 ==> w[k].width == ThumbWidth(i.width, i.height, w[k].height))
  {
    var i := info.value;
    var folder := GalleryFolder(env);
    var teaser := CreateTeaserImage(i, env);
    var run := CreateGallery(req, info, env, htmlEntities);
    assert run.effects == teaser.effects + [InsertGallery(run.outcome.value)];
    PngWritesAppend(teaser.effects, [InsertGallery(run.outcome.value)]);
    WritesGeometry(env.documentRoot, TEASER_NAME, folder, i.width, i.height);
  }

  // ---------------------------------------------------------------------------
  // Gallery folders

  /** Two successful creates share their teaser path exactly when they ran for
      the same session user and read the same AUTO_INCREMENT value; two requests
      of the same user racing on the counter therefore write into the same folder. */
  lemma TeaserPathsCollideIff(req1: GalleryRequest, info1: Option<ImageInfo>, env1: Environment,
                              req2: GalleryRequest, info2: Option<ImageInfo>, env2: Environment,
                              htmlEntities: string -> string)
    requires Accepted(info1) && Accepted(info2)
    ensures CreateGallery(req1, info1, env1, htmlEntities).outcome.value.teaserImage
         == CreateGallery(req2, info2, env2, htmlEntities).outcome.value.teaserImage
        <==> env1.sessionUserId == env2.sessionUserId && env1.nextGalleryId == env2.nextGalleryId
  {
    var f1, f2 := GalleryFolder(env1), GalleryFolder(env2);
    var p1 := CreateGallery(req1, info1, env1, htmlEntities).outcome.value.teaserImage;
    var p2 := CreateGallery(req2, info2, env2, htmlEntities).outcome.value.teaserImage;
    if p1 == p2 {
      assert |f1| == |f2|;
      assert f1 == p1[..|f1|] == f2;
      FolderPathInjective(env1.sessionUserId, env1.nextGalleryId, env2.sessionUserId, env2.nextGalleryId);
    }
  }
}
