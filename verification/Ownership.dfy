/** Gallery::checkIfOwnAccountOrRedirect: may this user act on this gallery?
    The SELECT of the author's gallery ids and User::isAdmin are inputs; the
    redirect header is returned as an optional effect. */
module Ownership {
  import opened Wrappers
  import opened Decimal

  /** The scalar PHP values an id can arrive as. Equality of these values is
      PHP's strict `===`: same type and same value. */
  datatype PhpValue = PhpInt(i: int) | PhpString(s: string)

  /** `id` is strictly equal to one of the author's gallery ids after the
      `(string)` cast applied while collecting them. */
  predicate OwnsGallery(id: PhpValue, authorGalleryIds: seq<nat>)
  {
    exists k :: 0 <= k < |authorGalleryIds| && id == PhpString(NatToString(authorGalleryIds[k]))
  }

  /** checkIfOwnAccountOrRedirect: collects the author's gallery ids as strings,
      then allows when `id` is among them or isAdmin(userID) == 1; otherwise it
      sends `redirectURL` as a header and refuses. `isAdminResult` is the value
      User::isAdmin returns. */
  method CheckIfOwnAccountOrRedirect(id: PhpValue, redirectURL: string, authorGalleryIds: seq<nat>, isAdminResult: int)
    returns (allowed: bool, header: Option<string>)
    ensures allowed <==> OwnsGallery(id, authorGalleryIds) || isAdminResult == 1
    ensures header.Some? <==> !allowed
    ensures header.Some? ==> header.value == redirectURL
  {
    var collected: seq<PhpValue> := [];
    var n := 0;
    while n < |authorGalleryIds|
      invariant 0 <= n <= |authorGalleryIds|
      invariant |collected| == n
      invariant forall k :: 0 <= k < n ==> collected[k] == PhpString(NatToString(authorGalleryIds[k]))
    {
      collected := collected + [PhpString(NatToString(authorGalleryIds[n]))];
      n := n + 1;
    }
    if id in collected || isAdminResult == 1 {
      return true, None;
    }
    header := Some(redirectURL);
    allowed := false;
  }

  /** Under strict comparison an integer id never equals a collected string, so
      an id passed as an integer is allowed only for administrators. */
  lemma IntegerIdNeverOwns(i: int, authorGalleryIds: seq<nat>)
    ensures !OwnsGallery(PhpInt(i), authorGalleryIds)
  {
  }

  /** The owner's own gallery, passed as its decimal string, is always allowed. */
  lemma OwnGalleryAllowed(galleryId: nat, authorGalleryIds: seq<nat>)
    requires galleryId in authorGalleryIds
    ensures OwnsGallery(PhpString(NatToString(galleryId)), authorGalleryIds)
  {
  }

  /** A string id names a gallery of the author exactly when it is the decimal
      form of one of the ids. */
  lemma {:induction false} StringIdOwnsIff(galleryId: nat, authorGalleryIds: seq<nat>)
    ensures OwnsGallery(PhpString(NatToString(galleryId)), authorGalleryIds) <==> galleryId in authorGalleryIds
  {
    if OwnsGallery(PhpString(NatToString(galleryId)), authorGalleryIds) {
      var k :| 0 <= k < |authorGalleryIds| && PhpString(NatToString(galleryId)) == PhpString(NatToString(authorGalleryIds[k]));
      NatToStringInjective(galleryId, authorGalleryIds[k]);
    } else if galleryId in authorGalleryIds {
      OwnGalleryAllowed(galleryId, authorGalleryIds);
    }
  }
}
