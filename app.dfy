/** The application store of App.tsx: the `users`, `posts` and `chats`
    collections, the signed-in user and the open chat, and the handlers
    that replace them. Each handler's new value is a pure whole-sequence
    transform, given first as a function; the class `Store` then applies them. */
module App {
  import opened Wrappers
  import opened Types
  import Seqs
  import Text
  import Constants

  /* ---------------- users ---------------- */

  /** `prevUsers.map(u => u.id === updatedUser.id ? updatedUser : u)`. */
  function WithUserReplaced(users: seq<User>, updated: User): (r: seq<User>)
    ensures |r| == |users|
    ensures forall i :: 0 <= i < |users| && users[i].id == updated.id ==> r[i] == updated
    ensures forall i :: 0 <= i < |users| && users[i].id != updated.id ==> r[i] == users[i]
  {
    Seqs.Map(users, (u: User) => if u.id == updated.id then updated else u)
  }

  /** Replacing a user keeps every position's id, so unique ids stay unique. */
  lemma ReplaceKeepsIds(users: seq<User>, updated: User)
    ensures forall i :: 0 <= i < |users| ==> WithUserReplaced(users, updated)[i].id == users[i].id
    ensures UniqueUserIds(users) ==> UniqueUserIds(WithUserReplaced(users, updated))
  {
  }

  /** Replacing by an id nobody has changes nothing; replacing twice is replacing once. */
  lemma ReplaceUnknownOrTwice(users: seq<User>, updated: User)
    ensures (forall i :: 0 <= i < |users| ==> users[i].id != updated.id) ==> WithUserReplaced(users, updated) == users
    ensures WithUserReplaced(WithUserReplaced(users, updated), updated) == WithUserReplaced(users, updated)
  {
  }

  /** Whether `i` is the last position of `updates` holding a user with id `k`. */
  ghost predicate LastWithId(updates: seq<User>, k: Id, i: int) {
    0 <= i < |updates| && updates[i].id == k
    && forall j :: i < j < |updates| ==> updates[j].id != k
  }

  /** The last position of `updates` holding a user with id `k`, if any. */
  function LastIndexWithId(updates: seq<User>, k: Id): (r: Option<nat>)
    ensures r.Some? ==> LastWithId(updates, k, r.value)
    ensures r.None? <==> forall j :: 0 <= j < |updates| ==> updates[j].id != k
  {
    if updates == [] then None
    else if updates[|updates| - 1].id == k then Some(|updates| - 1)
    else LastIndexWithId(updates[..|updates| - 1], k)
  }

  /** `new Map(updatedUsers.map(u => [u.id, u]))`: later entries overwrite earlier ones. */
  function BatchMap(updates: seq<User>): (m: map<Id, User>)
    ensures forall k :: k in m <==> LastIndexWithId(updates, k).Some?
    ensures forall k :: k in m ==> m[k] == updates[LastIndexWithId(updates, k).value]
  {
    if updates == [] then map[]
    else
      var last := updates[|updates| - 1];
      BatchMap(updates[..|updates| - 1])[last.id := last]
  }

  /** `prevUsers.map(u => updatedUserMap.get(u.id) || u)`. */
  function WithUsersBatchUpdated(users: seq<User>, updates: seq<User>): (r: seq<User>)
    ensures |r| == |users|
    ensures forall i :: 0 <= i < |users| && (forall j :: 0 <= j < |updates| ==> updates[j].id != users[i].id)
              ==> r[i] == users[i]
    ensures forall i :: 0 <= i < |users| && (exists j :: 0 <= j < |updates| && updates[j].id == users[i].id)
              ==> exists j :: LastWithId(updates, users[i].id, j) && r[i] == updates[j]
  {
    var m := BatchMap(updates);
    Seqs.Map(users, (u: User) => if u.id in m then m[u.id] else u)
  }

  /** `prevUsers.filter(u => u.id !== userId)`. */
  function UserDeleted(users: seq<User>, userId: Id): (r: seq<User>)
    ensures |r| <= |users|
    ensures forall i :: 0 <= i < |r| ==> r[i].id != userId && r[i] in users
    ensures forall i :: 0 <= i < |users| && users[i].id != userId ==> users[i] in r
  {
    Seqs.Filter(users, (u: User) => u.id != userId)
  }

  /** Deleting an id nobody has changes nothing. */
  lemma DeleteUnknownUser(users: seq<User>, userId: Id)
    requires forall i :: 0 <= i < |users| ==> users[i].id != userId
    ensures UserDeleted(users, userId) == users
  {
    Seqs.FilterKeepsAll(users, (u: User) => u.id != userId);
  }

  /** Registration appends; deleting the new user's fresh id undoes it. */
  lemma DeleteUndoesRegister(users: seq<User>, newUser: User)
    requires forall i :: 0 <= i < |users| ==> users[i].id != newUser.id
    ensures UserDeleted(users + [newUser], newUser.id) == users
  {
    var p := (u: User) => u.id != newUser.id;
    Seqs.FilterAppend(users, [newUser], p);
    Seqs.FilterKeepsAll(users, p);
  }

  /** Deletion keeps the survivors in their original order: it distributes over concatenation. */
  lemma DeleteKeepsOrder(a: seq<User>, b: seq<User>, userId: Id)
    ensures UserDeleted(a + b, userId) == UserDeleted(a, userId) + UserDeleted(b, userId)
  {
    Seqs.FilterAppend(a, b, (u: User) => u.id != userId);
  }

  /* ---------------- posts ---------------- */

  /** The fields a caller of `handleAddPost` supplies: a Post without id, createdAt and comments. */
  datatype PostDraft = PostDraft(clientId: Id, clientName: string, title: string, description: string)

  /** `[newPost, ...prevPosts]` with the draft's fields, a fresh id and time, and no comments. */
  function PostAdded(posts: seq<Post>, draft: PostDraft, id: Id, createdAt: string): (r: seq<Post>)
    ensures |r| == |posts| + 1 && r[1..] == posts
    ensures r[0].id == id && r[0].createdAt == createdAt && r[0].comments == []
    ensures r[0].clientId == draft.clientId && r[0].clientName == draft.clientName
    ensures r[0].title == draft.title && r[0].description == draft.description
  {
    [Post(id, draft.clientId, draft.clientName, draft.title, draft.description, [], createdAt)] + posts
  }

  /** `prevPosts.map(p => p.id === updatedPost.id ? updatedPost : p)`. */
  function WithPostReplaced(posts: seq<Post>, updated: Post): (r: seq<Post>)
    ensures |r| == |posts|
    ensures forall i :: 0 <= i < |posts| && posts[i].id == updated.id ==> r[i] == updated
    ensures forall i :: 0 <= i < |posts| && posts[i].id != updated.id ==> r[i] == posts[i]
  {
    Seqs.Map(posts, (p: Post) => if p.id == updated.id then updated else p)
  }

  /** `prevPosts.filter(p => p.id !== postId)`. */
  function PostDeleted(posts: seq<Post>, postId: Id): (r: seq<Post>)
    ensures |r| <= |posts|
    ensures forall i :: 0 <= i < |r| ==> r[i].id != postId && r[i] in posts
    ensures forall i :: 0 <= i < |posts| && posts[i].id != postId ==> posts[i] in r
  {
    Seqs.Filter(posts, (p: Post) => p.id != postId)
  }

  /** Post deletion keeps the newest-first order of the survivors: it distributes over concatenation. */
  lemma PostDeleteKeepsOrder(a: seq<Post>, b: seq<Post>, postId: Id)
    ensures PostDeleted(a + b, postId) == PostDeleted(a, postId) + PostDeleted(b, postId)
  {
    Seqs.FilterAppend(a, b, (p: Post) => p.id != postId);
  }

  /** Deleting a freshly added post gives back the old list. */
  lemma DeleteUndoesAddPost(posts: seq<Post>, draft: PostDraft, id: Id, createdAt: string)
    requires forall i :: 0 <= i < |posts| ==> posts[i].id != id
    ensures PostDeleted(PostAdded(posts, draft, id, createdAt), id) == posts
  {
    var p := (q: Post) => q.id != id;
    var added := PostAdded(posts, draft, id, createdAt);
    assert added == [added[0]] + posts;
    Seqs.FilterAppend([added[0]], posts, p);
    Seqs.FilterKeepsAll(posts, p);
  }

  /** `prevPosts.map(post => post.id === postId ? {...post, comments: [...post.comments, comment]} : post)`. */
  function CommentAppended(posts: seq<Post>, postId: Id, comment: Comment): (r: seq<Post>)
    ensures |r| == |posts|
    ensures forall i :: 0 <= i < |posts| && posts[i].id == postId ==>
              r[i] == posts[i].(comments := posts[i].comments + [comment])
    ensures forall i :: 0 <= i < |posts| && posts[i].id != postId ==> r[i] == posts[i]
  {
    Seqs.Map(posts, (p: Post) => if p.id == postId then p.(comments := p.comments + [comment]) else p)
  }

  /** All comments of all posts, in order. */
  function AllComments(posts: seq<Post>): seq<Comment> {
    if posts == [] then [] else posts[0].comments + AllComments(posts[1..])
  }

  /** The number of posts carrying a given id. */
  function CountPostId(posts: seq<Post>, postId: Id): nat {
    if posts == [] then 0 else (if posts[0].id == postId then 1 else 0) + CountPostId(posts[1..], postId)
  }

  /** Submitting a comment adds one comment per post carrying the target
      id, hence none for an unknown id and exactly one when ids are unique. */
  lemma {:induction false} CommentCount(posts: seq<Post>, postId: Id, comment: Comment)
    ensures |AllComments(CommentAppended(posts, postId, comment))|
         == |AllComments(posts)| + CountPostId(posts, postId)
  {
    if posts != [] {
      var r := CommentAppended(posts, postId, comment);
      assert r[1..] == CommentAppended(posts[1..], postId, comment);
      CommentCount(posts[1..], postId, comment);
    }
  }

  /* ---------------- chats ---------------- */

  /** `client-${clientId}-lawyer-${lawyerId}`. */
  function ChatKey(clientId: Id, lawyerId: Id): (r: string)
    ensures IsKeyOf(r, clientId, lawyerId)
  {
    var a, b := Text.NatToString(clientId), Text.NatToString(lawyerId);
    Text.DecimalRoundTrip(clientId);
    Text.DecimalRoundTrip(lawyerId);
    assert IsDecimalOf(a, clientId) && IsDecimalOf(b, lawyerId);
    "client-" + a + "-lawyer-" + b
  }

  /** `a` is a string of decimal digits that reads as `n`. */
  ghost predicate IsDecimalOf(a: string, n: nat) {
    (forall i :: 0 <= i < |a| ==> Text.IsDigit(a[i])) && Text.DecimalValue(a) == n
  }

  /** `k` is `client-`, the client id in decimal, `-lawyer-`, the lawyer id in decimal. */
  ghost predicate IsKeyOf(k: string, clientId: Id, lawyerId: Id) {
    exists a, b :: k == "client-" + a + "-lawyer-" + b && IsDecimalOf(a, clientId) && IsDecimalOf(b, lawyerId)
  }

  /** Splitting `x + m + y` where `x` is all digits and `m` starts with a non-digit. */
  lemma SplitAtNonDigit(x1: string, y1: string, x2: string, y2: string, m: string)
    requires forall i :: 0 <= i < |x1| ==> Text.IsDigit(x1[i])
    requires forall i :: 0 <= i < |x2| ==> Text.IsDigit(x2[i])
    requires |m| > 0 && !Text.IsDigit(m[0])
    requires x1 + m + y1 == x2 + m + y2
    ensures x1 == x2 && y1 == y2
  {
    var s := x1 + m + y1;
    assert s == x1 + (m + y1) == x2 + (m + y2);
    Text.LeadingDigitsOf(x1, m + y1);
    Text.LeadingDigitsOf(x2, m + y2);
    assert x1 == s[..|x1|] == x2;
    assert y1 == s[|x1| + |m|..] == y2;
  }

  /** Equal strings with a common prefix agree after it. */
  lemma DropPrefix(p: string, s1: string, s2: string)
    requires p + s1 == p + s2
    ensures s1 == s2
  {
    assert s1 == (p + s1)[|p|..];
    assert s2 == (p + s2)[|p|..];
  }

  /** The two digit strings a chat key is made of. */
  lemma KeyParts(k: string, clientId: Id, lawyerId: Id) returns (a: string, b: string)
    requires IsKeyOf(k, clientId, lawyerId)
    ensures k == "client-" + (a + "-lawyer-" + b)
    ensures IsDecimalOf(a, clientId) && IsDecimalOf(b, lawyerId)
  {
    a, b :| k == "client-" + a + "-lawyer-" + b && IsDecimalOf(a, clientId) && IsDecimalOf(b, lawyerId);
  }

  /** Different client/lawyer pairs get different chat ids. */
  lemma ChatKeyInjective(c1: Id, l1: Id, c2: Id, l2: Id)
    requires ChatKey(c1, l1) == ChatKey(c2, l2)
    ensures c1 == c2 && l1 == l2
  {
    var k := ChatKey(c1, l1);
    assert IsKeyOf(k, c1, l1) && IsKeyOf(k, c2, l2);
    var a1, b1 := KeyParts(k, c1, l1);
    var a2, b2 := KeyParts(k, c2, l2);
    DropPrefix("client-", a1 + "-lawyer-" + b1, a2 + "-lawyer-" + b2);
    SplitAtNonDigit(a1, b1, a2, b2, "-lawyer-");
  }

  /** Every chat's id is the key of its own pair, and no two chats share an id. */
  ghost predicate ChatsKeyed(chats: seq<Chat>) {
    && (forall i :: 0 <= i < |chats| ==> chats[i].id == ChatKey(chats[i].clientId, chats[i].lawyerId))
    && (forall i, j :: 0 <= i < j < |chats| ==> chats[i].id != chats[j].id)
  }

  /** Under `ChatsKeyed`, a chat id names one pair and one pair has at most one chat. */
  lemma KeyedChatsPerPair(chats: seq<Chat>, i: nat, j: nat)
    requires ChatsKeyed(chats) && i < |chats| && j < |chats|
    ensures chats[i].id == chats[j].id <==> i == j
    ensures (chats[i].clientId == chats[j].clientId && chats[i].lawyerId == chats[j].lawyerId) <==> i == j
  {
    if chats[i].id == chats[j].id {
      ChatKeyInjective(chats[i].clientId, chats[i].lawyerId, chats[j].clientId, chats[j].lawyerId);
    }
  }

  /** The chat list after `handleSelectLawyer` for a client: the chat keyed
      by the pair is appended, with no messages, unless one with that id exists. */
  function ChatsWithSelection(chats: seq<Chat>, clientId: Id, lawyerId: Id): (r: seq<Chat>)
    ensures (exists i :: 0 <= i < |chats| && chats[i].id == ChatKey(clientId, lawyerId)) ==> r == chats
    ensures (forall i :: 0 <= i < |chats| ==> chats[i].id != ChatKey(clientId, lawyerId)) ==>
              r == chats + [Chat(ChatKey(clientId, lawyerId), clientId, lawyerId, [])]
  {
    var chatId := ChatKey(clientId, lawyerId);
    match Seqs.Find(chats, (c: Chat) => c.id == chatId)
    case Some(_) => chats
    case None => chats + [Chat(chatId, clientId, lawyerId, [])]
  }

  /** Selecting twice adds at most one chat: the second selection changes nothing. */
  lemma SelectionIdempotent(chats: seq<Chat>, clientId: Id, lawyerId: Id)
    ensures ChatsWithSelection(ChatsWithSelection(chats, clientId, lawyerId), clientId, lawyerId)
         == ChatsWithSelection(chats, clientId, lawyerId)
    ensures |ChatsWithSelection(chats, clientId, lawyerId)| <= |chats| + 1
  {
    var r := ChatsWithSelection(chats, clientId, lawyerId);
    if forall i :: 0 <= i < |chats| ==> chats[i].id != ChatKey(clientId, lawyerId) {
      assert r[|chats|].id == ChatKey(clientId, lawyerId);
    }
  }

  /** Selection keeps the chats keyed, and afterwards exactly one chat carries
      the pair's key: a chat between that client and that lawyer. */
  lemma SelectionYieldsPairChat(chats: seq<Chat>, clientId: Id, lawyerId: Id)
    requires ChatsKeyed(chats)
    ensures ChatsKeyed(ChatsWithSelection(chats, clientId, lawyerId))
    ensures exists i ::
              && 0 <= i < |ChatsWithSelection(chats, clientId, lawyerId)|
              && ChatsWithSelection(chats, clientId, lawyerId)[i].id == ChatKey(clientId, lawyerId)
              && ChatsWithSelection(chats, clientId, lawyerId)[i].clientId == clientId
              && ChatsWithSelection(chats, clientId, lawyerId)[i].lawyerId == lawyerId
  {
    var key := ChatKey(clientId, lawyerId);
    var r := ChatsWithSelection(chats, clientId, lawyerId);
    if i :| 0 <= i < |chats| && chats[i].id == key {
      ChatKeyInjective(chats[i].clientId, chats[i].lawyerId, clientId, lawyerId);
      assert r[i].id == key;
    } else {
      assert r[|chats|].id == key;
    }
  }

  /** `prevChats.map(chat => chat.id === chatId ? {...chat, messages: [...chat.messages, message]} : chat)`. */
  function MessageAppended(chats: seq<Chat>, chatId: string, message: ChatMessage): (r: seq<Chat>)
    ensures |r| == |chats|
    ensures forall i :: 0 <= i < |chats| && chats[i].id == chatId ==>
              r[i] == chats[i].(messages := chats[i].messages + [message])
    ensures forall i :: 0 <= i < |chats| && chats[i].id != chatId ==> r[i] == chats[i]
  {
    Seqs.Map(chats, (c: Chat) => if c.id == chatId then c.(messages := c.messages + [message]) else c)
  }

  /** Appending a message keeps the chats keyed, and an unknown chat id changes nothing. */
  lemma MessageKeepsChatsKeyed(chats: seq<Chat>, chatId: string, message: ChatMessage)
    ensures ChatsKeyed(chats) ==> ChatsKeyed(MessageAppended(chats, chatId, message))
    ensures (forall i :: 0 <= i < |chats| ==> chats[i].id != chatId) ==> MessageAppended(chats, chatId, message) == chats
  {
  }

  /* ---------------- ratings ---------------- */

  /** A lawyer's profile after one rating: one more rating, the trimmed review
      appended when it is not blank, the running mean updated (without the
      source's rounding to one decimal), everything else as it was. */
  function Rated(p: LawyerProfile, rating: real, review: string): (q: LawyerProfile)
    ensures q.numberOfRatings == p.numberOfRatings + 1
    ensures q.rating * (q.numberOfRatings as real) == p.rating * (p.numberOfRatings as real) + rating
    ensures Text.Trim(review) != [] ==> q.reviews == p.reviews + [Text.Trim(review)]
    ensures Text.Trim(review) == [] ==> q.reviews == p.reviews
    ensures q.specialty == p.specialty && q.status == p.status && q.wonCases == p.wonCases && q.idUrl == p.idUrl
  {
    var trimmed := Text.Trim(review);
    var newReviews := if trimmed != [] then p.reviews + [trimmed] else p.reviews;
    var totalRatingPoints := p.rating * (p.numberOfRatings as real) + rating;
    var newNumberOfRatings := p.numberOfRatings + 1;
    var newAverageRating := if newNumberOfRatings > 0 then totalRatingPoints / (newNumberOfRatings as real) else 0.0;
    p.(reviews := newReviews, rating := newAverageRating, numberOfRatings := newNumberOfRatings)
  }

  /** Whether the rating handler touches this user. */
  predicate IsRatedLawyer(u: User, lawyerId: Id) {
    u.id == lawyerId && u.role.Lawyer?
  }

  /** `handleRateLawyer`'s map over the users: every lawyer with that id is rated, nobody else changes. */
  function LawyerRated(users: seq<User>, lawyerId: Id, rating: real, review: string): (r: seq<User>)
    ensures |r| == |users|
    ensures forall i :: 0 <= i < |users| && IsRatedLawyer(users[i], lawyerId) ==>
              r[i] == users[i].(role := Lawyer(Rated(users[i].role.profile, rating, review)))
    ensures forall i :: 0 <= i < |users| && !IsRatedLawyer(users[i], lawyerId) ==> r[i] == users[i]
  {
    Seqs.Map(users, (u: User) =>
      if IsRatedLawyer(u, lawyerId) then u.(role := Lawyer(Rated(u.role.profile, rating, review))) else u)
  }

  /** The sum of a sequence of ratings. */
  function Sum(rs: seq<real>): real {
    if rs == [] then 0.0 else Sum(rs[..|rs| - 1]) + rs[|rs| - 1]
  }

  /** A profile after the ratings `rs`, given in order, each without a review. */
  function RatedAll(p: LawyerProfile, rs: seq<real>): LawyerProfile {
    if rs == [] then p else Rated(RatedAll(p, rs[..|rs| - 1]), rs[|rs| - 1], "")
  }

  /** Starting from no ratings, the stored rating is the mean of all ratings
      given and the count is their number, whatever the earlier rating was. */
  lemma {:induction false} RatingIsMean(p: LawyerProfile, rs: seq<real>)
    requires p.numberOfRatings == 0
    ensures RatedAll(p, rs).numberOfRatings == |rs|
    ensures |rs| > 0 ==> RatedAll(p, rs).rating == Sum(rs) / (|rs| as real)
  {
    RatingPoints(p, rs);
    var q := RatedAll(p, rs);
    assert p.rating * (p.numberOfRatings as real) == 0.0;
    if |rs| > 0 {
      DivideBack(q.rating, |rs| as real, Sum(rs));
    }
  }

  lemma DivideBack(x: real, n: real, s: real)
    requires n > 0.0 && x * n == s
    ensures x == s / n
  {
  }

  /** The total rating points grow by exactly each rating given. */
  lemma {:induction false} RatingPoints(p: LawyerProfile, rs: seq<real>)
    ensures RatedAll(p, rs).numberOfRatings == p.numberOfRatings + |rs|
    ensures RatedAll(p, rs).rating * (RatedAll(p, rs).numberOfRatings as real)
         == p.rating * (p.numberOfRatings as real) + Sum(rs)
  {
    if rs != [] {
      RatingPoints(p, rs[..|rs| - 1]);
    }
  }

  /* ---------------- the store ---------------- */

  /** The state App.tsx keeps with `useState`. */
  class Store {
    var users: seq<User>
    var posts: seq<Post>
    var chats: seq<Chat>
    var currentUser: Option<User>
    var activeChatId: Option<string>

    ghost predicate Valid()
      reads this
    {
      ChatsKeyed(chats)
    }

    /** The seeded store; the signed-in user is whatever local storage held,
        `now` the load time stamped on the seed messages. */
    constructor (savedUser: Option<User>, now: string)
      ensures Valid()
      ensures users == Constants.Users && posts == Constants.Posts && chats == Constants.Chats(now)
      ensures currentUser == savedUser && activeChatId == None
    {
      users := Constants.Users;
      posts := Constants.Posts;
      chats := Constants.Chats(now);
      currentUser := savedUser;
      activeChatId := None;
      SeedChatsKeyed(now);
    }

    /** `handleLogin`. */
    method LogIn(user: User)
      requires Valid()
      modifies this
      ensures Valid()
      ensures currentUser == Some(user)
      ensures users == old(users) && posts == old(posts) && chats == old(chats) && activeChatId == old(activeChatId)
    {
      currentUser := Some(user);
    }

    /** `handleLogout`. */
    method LogOut()
      requires Valid()
      modifies this
      ensures Valid()
      ensures currentUser == None
      ensures users == old(users) && posts == old(posts) && chats == old(chats) && activeChatId == old(activeChatId)
    {
      currentUser := None;
    }

    /** `handleRegister`: the new user goes at the end. */
    method Register(newUser: User)
      requires Valid()
      modifies this
      ensures Valid()
      ensures users == old(users) + [newUser]
      ensures posts == old(posts) && chats == old(chats)
      ensures currentUser == old(currentUser) && activeChatId == old(activeChatId)
    {
      users := users + [newUser];
    }

    /** `handleUpdateUser`: the signed-in user follows the edit when it is the edited one. */
    method UpdateUser(updatedUser: User)
      requires Valid()
      modifies this
      ensures Valid()
      ensures users == WithUserReplaced(old(users), updatedUser)
      ensures old(currentUser).Some? && old(currentUser).value.id == updatedUser.id ==> currentUser == Some(updatedUser)
      ensures !(old(currentUser).Some? && old(currentUser).value.id == updatedUser.id) ==> currentUser == old(currentUser)
      ensures posts == old(posts) && chats == old(chats) && activeChatId == old(activeChatId)
    {
      users := WithUserReplaced(users, updatedUser);
      if currentUser.Some? && currentUser.value.id == updatedUser.id {
        currentUser := Some(updatedUser);
      }
    }

    /** `handleUpdateUsersBatch`. */
    method UpdateUsersBatch(updatedUsers: seq<User>)
      requires Valid()
      modifies this
      ensures Valid()
      ensures users == WithUsersBatchUpdated(old(users), updatedUsers)
      ensures posts == old(posts) && chats == old(chats)
      ensures currentUser == old(currentUser) && activeChatId == old(activeChatId)
    {
      users := WithUsersBatchUpdated(users, updatedUsers);
    }

    /** `handleDeleteUser`. */
    method DeleteUser(userId: Id)
      requires Valid()
      modifies this
      ensures Valid()
      ensures users == UserDeleted(old(users), userId)
      ensures posts == old(posts) && chats == old(chats)
      ensures currentUser == old(currentUser) && activeChatId == old(activeChatId)
    {
      users := UserDeleted(users, userId);
    }

    /** `handleAddPost`; `Date.now()` and the ISO time are passed in. */
    method AddPost(postData: PostDraft, id: Id, createdAt: string)
      requires Valid()
      modifies this
      ensures Valid()
      ensures posts == PostAdded(old(posts), postData, id, createdAt)
      ensures users == old(users) && chats == old(chats)
      ensures currentUser == old(currentUser) && activeChatId == old(activeChatId)
    {
      posts := PostAdded(posts, postData, id, createdAt);
    }

    /** `handleUpdatePost`. */
    method UpdatePost(updatedPost: Post)
      requires Valid()
      modifies this
      ensures Valid()
      ensures posts == WithPostReplaced(old(posts), updatedPost)
      ensures users == old(users) && chats == old(chats)
      ensures currentUser == old(currentUser) && activeChatId == old(activeChatId)
    {
      posts := WithPostReplaced(posts, updatedPost);
    }

    /** `handleDeletePost`. */
    method DeletePost(postId: Id)
      requires Valid()
      modifies this
      ensures Valid()
      ensures posts == PostDeleted(old(posts), postId)
      ensures users == old(users) && chats == old(chats)
      ensures currentUser == old(currentUser) && activeChatId == old(activeChatId)
    {
      posts := PostDeleted(posts, postId);
    }

    /** `handleCommentSubmit`. */
    method SubmitComment(postId: Id, comment: Comment)
      requires Valid()
      modifies this
      ensures Valid()
      ensures posts == CommentAppended(old(posts), postId, comment)
      ensures users == old(users) && chats == old(chats)
      ensures currentUser == old(currentUser) && activeChatId == old(activeChatId)
    {
      posts := CommentAppended(posts, postId, comment);
    }

    /** `handleSelectLawyer`: only a signed-in client opens a chat; the chat
        keyed by the pair is created if missing and becomes the active one. */
    method SelectLawyer(lawyerId: Id)
      requires Valid()
      modifies this
      ensures Valid()
      ensures old(currentUser).Some? && old(currentUser).value.role.Client? ==>
                && chats == ChatsWithSelection(old(chats), old(currentUser).value.id, lawyerId)
                && activeChatId == Some(ChatKey(old(currentUser).value.id, lawyerId))
      ensures !(old(currentUser).Some? && old(currentUser).value.role.Client?) ==>
                chats == old(chats) && activeChatId == old(activeChatId)
      ensures users == old(users) && posts == old(posts) && currentUser == old(currentUser)
    {
      if !(currentUser.Some? && currentUser.value.role.Client?) {
        return;
      }
      var clientId := currentUser.value.id;
      var chatId := ChatKey(clientId, lawyerId);
      SelectionYieldsPairChat(chats, clientId, lawyerId);
      if Seqs.Find(chats, (c: Chat) => c.id == chatId).None? {
        var newChat := Chat(chatId, clientId, lawyerId, []);
        chats := chats + [newChat];
      }
      activeChatId := Some(chatId);
    }

    /** `handleSendMessage`. */
    method SendMessage(chatId: string, message: ChatMessage)
      requires Valid()
      modifies this
      ensures Valid()
      ensures chats == MessageAppended(old(chats), chatId, message)
      ensures users == old(users) && posts == old(posts)
      ensures currentUser == old(currentUser) && activeChatId == old(activeChatId)
    {
      MessageKeepsChatsKeyed(chats, chatId, message);
      chats := MessageAppended(chats, chatId, message);
    }

    /** `handleRateLawyer`; the thank-you alert and closing the profile are UI. */
    method RateLawyer(lawyerId: Id, rating: real, review: string)
      requires Valid()
      modifies this
      ensures Valid()
      ensures users == LawyerRated(old(users), lawyerId, rating, review)
      ensures posts == old(posts) && chats == old(chats)
      ensures currentUser == old(currentUser) && activeChatId == old(activeChatId)
    {
      users := LawyerRated(users, lawyerId, rating, review);
    }
  }

  /** The seed chat list is keyed: its one chat's id is the key of its pair. */
  lemma SeedChatsKeyed(now: string)
    ensures ChatsKeyed(Constants.Chats(now))
  {
    assert Text.NatToString(5) == "5";
    assert Text.NatToString(3) == "3";
    assert ChatKey(5, 3) == "client-5-lawyer-3";
  }
}
