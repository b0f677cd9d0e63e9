/** Where the teaser image and its thumbnails go, and how large the thumbnails
    are (Gallery::createTeaserImage's path scheme and Gallery::createThumbnail). */
module Thumbnails {
  import opened Wrappers
  import opened Decimal
  import opened GalleryTypes

  /** DIRECTORY_SEPARATOR on the server's platform. */
  const DIRECTORY_SEPARATOR: string := "/"
  const GALLERY_ROOT: string := "/data/media/gallery/"
  const TEASER_NAME: string := "teaserImage"

  /** One entry of the ordered `$new_height` array: a size name and its height. */
  datatype Tier = Tier(sizeName: string, height: nat)

  const TIERS: seq<Tier> := [Tier("small", 100), Tier("medium", 200), Tier("large", 400)]

  /** The gallery folder, relative to the document root. */
  function FolderPath(userId: nat, galleryId: nat): string {
    GALLERY_ROOT + NatToString(userId) + DIRECTORY_SEPARATOR + NatToString(galleryId) + DIRECTORY_SEPARATOR
  }

  /** The full-size teaser PNG inside a folder. */
  function TeaserPath(folder: string): string {
    folder + TEASER_NAME + ".png"
  }

  function ThumbName(name: string, tier: Tier): string {
    name + "." + tier.sizeName + ".thumb.png"
  }

  /** `floor($width * ($new_thumb_height / $height))` in exact arithmetic. */
  function ThumbWidth(width: nat, height: nat, tierHeight: nat): (w: nat)
    requires height > 0
    ensures w * height <= width * tierHeight < (w + 1) * height
  {
    (width * tierHeight) / height
  }

  /** The array createThumbnail returns: size name => path, in tier order. */
  function ThumbnailEntries(name: string, path: string): seq<(string, string)> {
    seq(|TIERS|, i requires 0 <= i < |TIERS| => (TIERS[i].sizeName, path + ThumbName(name, TIERS[i])))
  }

  /** The PNG files createThumbnail writes, in tier order. */
  function ThumbnailWrites(documentRoot: string, name: string, path: string, width: nat, height: nat): seq<Effect>
    requires height > 0
  {
    seq(|TIERS|, i requires 0 <= i < |TIERS| =>
      WritePng(documentRoot + path + ThumbName(name, TIERS[i]), ThumbWidth(width, height, TIERS[i].height), TIERS[i].height))
  }

  /** Whether createThumbnail gets through all three tiers: the height is not 0
      and even the smallest tier is at least one pixel wide. */
  predicate FitsSmallestTier(width: nat, height: nat) {
    height > 0 && width * TIERS[0].height >= height
  }

  /** The exception createThumbnail ends in, if any: a zero height fails the
      first division, a smallest width of 0 fails imagecreatetruecolor. */
  function ThumbnailFailure(width: nat, height: nat): (f: Option<GalleryError>)
    ensures f.None? <==> FitsSmallestTier(width, height)
    ensures f == Some(DivisionByZero) <==> height == 0
  {
    if height == 0 then Some(DivisionByZero)
    else if !FitsSmallestTier(width, height) then Some(ZeroWidthThumbnail)
    else None
  }

  /** createThumbnail: for each tier, computes the width, writes the resized PNG
      and records its path under the tier's name. `width` and `height` are what
      getimagesize reports for the teaser image. A zero height makes the first
      division throw; a computed width of 0 makes imagecreatetruecolor throw.
      Either happens in the first tier, before anything is written. */
  method CreateThumbnail(documentRoot: string, name: string, path: string, width: nat, height: nat)
    returns (result: Result<seq<(string, string)>, GalleryError>, writes: seq<Effect>)
    ensures height == 0 ==> result == Failure(DivisionByZero) && writes == []
    ensures height > 0 && !FitsSmallestTier(width, height) ==> result == Failure(ZeroWidthThumbnail) && writes == []
    ensures FitsSmallestTier(width, height) ==> result == Success(ThumbnailEntries(name, path))
    ensures FitsSmallestTier(width, height) ==> writes == ThumbnailWrites(documentRoot, name, path, width, height)
    ensures result.Failure? <==> ThumbnailFailure(width, height).Some?
    ensures result.Failure? ==> ThumbnailFailure(width, height) == Some(result.error)
  {
    ghost var fits := FitsSmallestTier(width, height);
    if height > 0 {
      FitsIffAllTiersWide(width, height);
    }
    var entries: seq<(string, string)> := [];
    writes := [];
    var i := 0;
    while i < |TIERS|
      invariant 0 <= i <= |TIERS|
      invariant !fits ==> i == 0 && writes == []
      invariant fits ==> entries == ThumbnailEntries(name, path)[..i]
      invariant fits ==> writes == ThumbnailWrites(documentRoot, name, path, width, height)[..i]
    {
      var tier := TIERS[i];
      var thumbName := name + "." + tier.sizeName + ".thumb.png";
      if height == 0 {
        return Failure(DivisionByZero), writes;
      }
      var newWidth := (width * tier.height) / height;
      assert newWidth == ThumbWidth(width, height, tier.height);
      if newWidth == 0 {
        return Failure(ZeroWidthThumbnail), writes;
      }
      var newPath := documentRoot + path;
      writes := writes + [WritePng(newPath + thumbName, newWidth, tier.height)];
      entries := entries + [(tier.sizeName, path + thumbName)];
      i := i + 1;
    }
    assert fits ==> ThumbnailEntries(name, path)[..i] == ThumbnailEntries(name, path);
    result := Success(entries);
  }

  /** The smallest tier fits exactly when every tier's thumbnail is at least one
      pixel wide. */
  lemma FitsIffAllTiersWide(width: nat, height: nat)
    requires height > 0
    ensures FitsSmallestTier(width, height) <==> ThumbWidth(width, height, TIERS[0].height) > 0
    ensures FitsSmallestTier(width, height) <==> forall i :: 0 <= i < |TIERS| ==> ThumbWidth(width, height, TIERS[i].height) > 0
  {
    var w := ThumbWidth(width, height, 100);
    if FitsSmallestTier(width, height) {
      assert w > 0;
      ThumbWidthMonotone(width, height, 100, 200);
      ThumbWidthMonotone(width, height, 100, 400);
    } else if w > 0 {
      MulLeftMonotone(height, 1, w);
      assert false;
    }
  }

  // ---------------------------------------------------------------------------
  // The thumbnail array

  /** Exactly the keys small, medium and large, in that order, with heights 100,
      200 and 400, each path being `path + name + "." + size + ".thumb.png"`. */
  lemma EntriesShape(name: string, path: string)
    ensures var r := ThumbnailEntries(name, path);
      && |r| == 3
      && r[0].0 == "small" && r[1].0 == "medium" && r[2].0 == "large"
      && r[0].1 == path + name + ".small.thumb.png"
      && r[1].1 == path + name + ".medium.thumb.png"
      && r[2].1 == path + name + ".large.thumb.png"
  {
  }

  /** The three thumbnail paths share the folder prefix and are pairwise distinct. */
  lemma EntriesDistinctUnderFolder(name: string, path: string)
    ensures var r := ThumbnailEntries(name, path);
      && (forall i :: 0 <= i < |r| ==> path <= r[i].1)
      && (forall i, j :: 0 <= i < j < |r| ==> r[i].1 != r[j].1)
  {
    var r := ThumbnailEntries(name, path);
    var k := |path| + |name| + 1;
    forall i | 0 <= i < |r|
      ensures path <= r[i].1
      ensures |r[i].1| > k && r[i].1[k] == TIERS[i].sizeName[0]
    {
      assert r[i].1 == path + (name + "." + TIERS[i].sizeName + ".thumb.png");
      assert r[i].1 == (path + name + ".") + TIERS[i].sizeName + ".thumb.png";
    }
  }

  /** The teaser PNG is not overwritten by any thumbnail of the same folder. */
  lemma TeaserDistinctFromThumbnails(folder: string)
    ensures forall i :: 0 <= i < |TIERS| ==> TeaserPath(folder) != ThumbnailEntries(TEASER_NAME, folder)[i].1
  {
  }

  /** Every thumbnail file has its tier's height and the proportional width. */
  lemma WritesGeometry(documentRoot: string, name: string, path: string, width: nat, height: nat)
    requires height > 0
    ensures var w := ThumbnailWrites(documentRoot, name, path, width, height);
      && |w| == 3
      && w[0].height == 100 && w[1].height == 200 && w[2].height == 400
      && (forall i :: 0 <= i < 3 ==> w[i].WritePng? && w[i].width * height <= width * w[i].height < (w[i].width + 1) * height)
      && (forall i :: 0 <= i < 3 ==> w[i].filePath == documentRoot + ThumbnailEntries(name, path)[i].1)
      && w[0].width <= w[1].width <= w[2].width
  {
    ThumbWidthMonotone(width, height, 100, 200);
    ThumbWidthMonotone(width, height, 200, 400);
  }

  // ---------------------------------------------------------------------------
  // The width formula

  /** A taller tier never yields a narrower thumbnail. */
  lemma ThumbWidthMonotone(width: nat, height: nat, h1: nat, h2: nat)
    requires height > 0 && h1 <= h2
    ensures ThumbWidth(width, height, h1) <= ThumbWidth(width, height, h2)
  {
    var w1, w2 := ThumbWidth(width, height, h1), ThumbWidth(width, height, h2);
    assert width * h1 <= width * h2 by { MulLeftMonotone(width, h1, h2); }
    if w1 > w2 {
      MulLeftMonotone(height, w2 + 1, w1);
      assert false;
    }
  }

  /** Scaling to the original height keeps the original width. */
  lemma ThumbWidthAtOwnHeight(width: nat, height: nat)
    requires height > 0
    ensures ThumbWidth(width, height, height) == width
  {
  }

  /** The width never exceeds the exact proportional width and is less than one
      pixel below it. */
  lemma ThumbWidthExactBounds(width: nat, height: nat, tierHeight: nat)
    requires height > 0
    ensures var exact := (width * tierHeight) as real / height as real;
      ThumbWidth(width, height, tierHeight) as real <= exact < ThumbWidth(width, height, tierHeight) as real + 1.0
  {
    FloorDivReal(width * tierHeight, height, ThumbWidth(width, height, tierHeight));
  }

  lemma MulLeftMonotone(c: nat, a: nat, b: nat)
    requires a <= b
    ensures c * a <= c * b && a * c <= b * c
  {
  }

  /** An integer quotient bracketed by the divisor is the floor of the real quotient. */
  lemma FloorDivReal(n: nat, d: nat, q: nat)
    requires d > 0 && q * d <= n < (q + 1) * d
    ensures q as real <= n as real / d as real < q as real + 1.0
  {
    var lo, hi := q * d, (q + 1) * d;
    assert lo as real <= n as real < hi as real;
    CastMul(q, d);
    CastMul(q + 1, d);
    RealFloor(q as real, d as real, n as real);
  }

  lemma CastMul(a: nat, b: nat)
    ensures (a * b) as real == a as real * b as real
  {
  }

  lemma RealFloor(q: real, d: real, n: real)
    requires d > 0.0
    requires q * d <= n < (q + 1.0) * d
    ensures q <= n / d < q + 1.0
  {
    var e := n / d;
    assert e * d == n;
    if e >= q + 1.0 {
      RealMulMonotone(q + 1.0, e, d);
      assert false;
    }
  }

  lemma RealMulMonotone(a: real, b: real, d: real)
    requires a <= b && d > 0.0
    ensures a * d <= b * d
  {
  }

  // ---------------------------------------------------------------------------
  // The folder scheme

  /** Folder names do not collide: distinct (user, gallery) pairs give distinct
      folders, so galleries with different ids never share their files. */
  lemma {:induction false} FolderPathInjective(u1: nat, g1: nat, u2: nat, g2: nat)
    requires FolderPath(u1, g1) == FolderPath(u2, g2)
    ensures u1 == u2 && g1 == g2
  {
    var a, b := NatToString(u1), NatToString(u2);
    var c, d := NatToString(g1), NatToString(g2);
    var t1, t2 := a + "/" + (c + "/"), b + "/" + (d + "/");
    assert FolderPath(u1, g1) == GALLERY_ROOT + t1;
    assert FolderPath(u2, g2) == GALLERY_ROOT + t2;
    assert t1 == (GALLERY_ROOT + t1)[|GALLERY_ROOT|..];
    assert t2 == (GALLERY_ROOT + t2)[|GALLERY_ROOT|..];
    DigitsSlashSplit(a, c + "/", b, d + "/");
    NatToStringInjective(u1, u2);
    assert c == (c + "/")[..|c|];
    assert d == (d + "/")[..|d|];
    NatToStringInjective(g1, g2);
  }

  /** The folder and teaser path follow `/data/media/gallery/{user}/{gallery}/`. */
  lemma TeaserPathShape(userId: nat, galleryId: nat)
    ensures var f := FolderPath(userId, galleryId);
      && GALLERY_ROOT <= f
      && f[|f| - 1] == '/'
      && TeaserPath(f) == "/data/media/gallery/" + NatToString(userId) + "/" + NatToString(galleryId) + "/teaserImage.png"
  {
  }
}
