/** The client's dashboard (components/dashboard/ClientDashboard.tsx): posting
    a consultation request, and the chat list with its previews. */
module ClientDashboard {
  import opened Wrappers
  import opened Types
  import Seqs

  /** Shown when a chat's lawyer is not among the approved lawyers. */
  const UnknownLawyerLabel: string := "محامي غير معروف"
  /** Shown for a chat that has no messages yet. */
  const EmptyChatPlaceholder: string := "ابدأ المحادثة..."
  /** Put before the preview when the last message is the client's own. */
  const OwnMessagePrefix: string := "أنت: "

  /** `handlePostSubmit`: nothing unless both title and description are filled;
      otherwise the new post, authored by the current user, goes first.
      `Date.now()` and the ISO time are the parameters `id` and `createdAt`. */
  function PostSubmitted(posts: seq<Post>, currentUser: User, title: string, description: string,
                         id: Id, createdAt: string): (r: seq<Post>)
    ensures title == [] || description == [] ==> r == posts
    ensures title != [] && description != [] ==>
              && |r| == |posts| + 1 && r[1..] == posts
              && r[0].id == id && r[0].createdAt == createdAt && r[0].comments == []
              && r[0].clientId == currentUser.id && r[0].clientName == currentUser.fullName
              && r[0].title == title && r[0].description == description
  {
    if title == [] || description == [] then posts
    else [Post(id, currentUser.id, currentUser.fullName, title, description, [], createdAt)] + posts
  }

  /** `chats.filter(c => c.clientId === currentUser.id)`. */
  function ClientChats(chats: seq<Chat>, currentUser: User): (r: seq<Chat>)
    ensures forall i :: 0 <= i < |r| ==> r[i] in chats && r[i].clientId == currentUser.id
    ensures forall i :: 0 <= i < |chats| && chats[i].clientId == currentUser.id ==> chats[i] in r
  {
    Seqs.Filter(chats, (c: Chat) => c.clientId == currentUser.id)
  }

  /** The lawyers a client may browse: approved lawyers only. */
  function BrowsableLawyers(users: seq<User>): (r: seq<User>)
    ensures forall i :: 0 <= i < |r| ==> r[i] in users && IsApprovedLawyer(r[i])
    ensures forall i :: 0 <= i < |users| && IsApprovedLawyer(users[i]) ==> users[i] in r
  {
    Seqs.Filter(users, IsApprovedLawyer)
  }

  /** Whether `users[i]` is an approved lawyer with the chat's lawyer id. */
  ghost predicate IsChatLawyer(users: seq<User>, chat: Chat, i: int) {
    0 <= i < |users| && IsApprovedLawyer(users[i]) && users[i].id == chat.lawyerId
  }

  /** `lawyer?.fullName || 'محامي غير معروف'`, looking the lawyer up among the
      browsable lawyers only: the first approved lawyer with the chat's lawyer
      id gives the name, unless that name is empty or there is no such lawyer. */
  function ChatLawyerName(users: seq<User>, chat: Chat): (r: string)
    ensures forall i :: IsChatLawyer(users, chat, i) && (forall j :: 0 <= j < i ==> !IsChatLawyer(users, chat, j))
              ==> r == if users[i].fullName != [] then users[i].fullName else UnknownLawyerLabel
    ensures r != UnknownLawyerLabel ==> exists i :: IsChatLawyer(users, chat, i) && users[i].fullName == r
    ensures (forall i :: 0 <= i < |users| ==> !IsChatLawyer(users, chat, i)) ==> r == UnknownLawyerLabel
  {
    var hasId := (l: User) => l.id == chat.lawyerId;
    var isChatLawyer := (u: User) => IsApprovedLawyer(u) && u.id == chat.lawyerId;
    var found := Seqs.Find(BrowsableLawyers(users), hasId);
    assert found == Seqs.Find(users, isChatLawyer) by {
      Seqs.FindInFilter(users, IsApprovedLawyer, hasId, isChatLawyer);
    }
    assert forall i :: 0 <= i < |users| ==> (isChatLawyer(users[i]) <==> IsChatLawyer(users, chat, i));
    match found
    case None => UnknownLawyerLabel
    case Some(lawyer) =>
      if lawyer.fullName != [] then lawyer.fullName else UnknownLawyerLabel
  }

  /** The preview line: the last message, marked when the client sent it,
      or a placeholder for an empty chat. */
  function ChatPreview(chat: Chat, currentUser: User): (r: string)
    ensures chat.messages == [] ==> r == EmptyChatPlaceholder
    ensures chat.messages != [] ==>
              var last := chat.messages[|chat.messages| - 1];
              && (r == OwnMessagePrefix + last.text <==> last.senderId == currentUser.id)
              && (r == last.text <==> last.senderId != currentUser.id)
  {
    if chat.messages == [] then EmptyChatPlaceholder
    else
      var lastMessage := chat.messages[|chat.messages| - 1];
      if lastMessage.senderId == currentUser.id then
        assert |OwnMessagePrefix + lastMessage.text| != |lastMessage.text|;
        OwnMessagePrefix + lastMessage.text
      else
        assert |OwnMessagePrefix + lastMessage.text| != |lastMessage.text|;
        lastMessage.text
  }

  /** The preview starts with the own-message prefix exactly when the last
      message is the client's, provided no one else's message text starts that way. */
  lemma PreviewMarksOwnMessage(chat: Chat, currentUser: User)
    requires chat.messages != []
    requires !(|chat.messages[|chat.messages| - 1].text| >= |OwnMessagePrefix|
               && chat.messages[|chat.messages| - 1].text[..|OwnMessagePrefix|] == OwnMessagePrefix)
    ensures var r := ChatPreview(chat, currentUser);
      (|r| >= |OwnMessagePrefix| && r[..|OwnMessagePrefix|] == OwnMessagePrefix)
        <==> chat.messages[|chat.messages| - 1].senderId == currentUser.id
  {
    var r := ChatPreview(chat, currentUser);
    var last := chat.messages[|chat.messages| - 1];
    if last.senderId == currentUser.id {
      assert r[..|OwnMessagePrefix|] == OwnMessagePrefix;
    } else {
      assert r == last.text;
    }
  }
}
