/** The offer form and ownership rule of a post's card
    (components/common/PostCard.tsx). */
module PostCard {
  import opened Wrappers
  import opened Types

  /** What `onCommentSubmit` is called with: the card's post id and the comment. */
  datatype Submission = Submission(postId: Id, comment: Comment)

  /** `handleCommentSubmit`: a lawyer with both text and cost filled submits,
      once, an offer carrying their id, name and specialty; otherwise nothing.
      `Date.now()` is the parameter `id`. */
  function CommentSubmission(post: Post, currentUser: User, newComment: string, cost: string, id: Id)
    : (r: Option<Submission>)
    ensures r.Some? <==> newComment != [] && cost != [] && currentUser.role.Lawyer?
    ensures r.Some? ==>
              && r.value.postId == post.id
              && r.value.comment.id == id
              && r.value.comment.lawyerId == currentUser.id
              && r.value.comment.lawyerName == currentUser.fullName
              && r.value.comment.lawyerSpecialty == currentUser.role.profile.specialty
              && r.value.comment.text == newComment && r.value.comment.cost == cost
  {
    if newComment == [] || cost == [] || !currentUser.role.Lawyer? then None
    else
      var comment := Comment(id, currentUser.id, currentUser.fullName, currentUser.role.profile.specialty,
                             newComment, cost);
      Some(Submission(post.id, comment))
  }

  /** `isClientOwner`. */
  predicate IsClientOwner(currentUser: User, post: Post) {
    currentUser.role == Client && currentUser.id == post.clientId
  }

  /** The "select and start a chat" button of an offer: shown only to the
      post's owning client, and it passes the offering lawyer's id. */
  function LawyerSelection(currentUser: User, post: Post, comment: Comment): (r: Option<Id>)
    ensures r.Some? <==> currentUser.role == Client && currentUser.id == post.clientId
    ensures r.Some? ==> r.value == comment.lawyerId
  {
    if IsClientOwner(currentUser, post) then Some(comment.lawyerId) else None
  }
}
