/** The behaviour every repository backend shares (music/adapters/Repository.py):
    the check `AbstractRepository.add_review` makes before a review is stored.
    The rest of that file is the list of operations, which `Memory` implements. */
module Repository {
  import opened Wrappers
  import opened DomainModel
  import Lists

  /** `review.user is not None and review in review.user.reviews`. */
  predicate LinkedToUser(review: Review)
    reads review.user
  {
    review.user != null && Lists.Contains(review.user.reviews, review, ReviewKey)
  }

  /** `review.track is not None and review in review.track.reviews`. */
  predicate LinkedToTrack(review: Review)
    reads review.track
  {
    review.track != null && Lists.Contains(review.track.reviews, review, ReviewKey)
  }

  /** `AbstractRepository.add_review`: raises RepositoryException unless the
      review is linked both ways; the user link is checked first; nothing is
      changed either way. */
  function CheckReviewLinks(review: Review): (r: Outcome)
    reads review.user, review.track
    ensures r == Pass <==> LinkedToUser(review) && LinkedToTrack(review)
    ensures r.Fail? ==> r.error.RepositoryException?
    ensures !LinkedToUser(review) ==> r.error.fault == UserLink
    ensures LinkedToUser(review) && !LinkedToTrack(review) ==> r.error.fault == TrackLink
  {
    if !LinkedToUser(review) then Fail(RepositoryException(UserLink))
    else if !LinkedToTrack(review) then Fail(RepositoryException(TrackLink))
    else Pass
  }

  /** A review whose user is None is refused, whatever its track. */
  lemma NoUserIsRejected(review: Review)
    requires review.user == null
    ensures CheckReviewLinks(review) == Fail(RepositoryException(UserLink))
  {
  }
}
