/** Walk-throughs that cross components: the store's handlers fed by the
    login form, the dashboards, the post card and the chat window. */
module Scenarios {
  import opened Wrappers
  import opened Types
  import Text
  import App
  import Auth
  import AdminDashboard
  import ClientDashboard
  import PostCard
  import ChatWindow

  /** A lawyer who signs up is held back until an admin approves the
      account (an edit through `handleUpdateUser`), and then gets in. */
  lemma ApprovalLetsLawyerIn(users: seq<User>, form: Auth.RegisterForm, id: Id)
    requires forall j :: 0 <= j < |users| ==> users[j].id != id
    requires Auth.Register(users, Auth.AsLawyer, form, id).Success?
    requires Text.Trim(form.email) == form.email
    requires forall j :: 0 <= j < |users| ==> users[j].phone != Some(Text.ToLower(form.email))
    ensures var u := Auth.Register(users, Auth.AsLawyer, form, id).value;
      var approved := u.(role := Lawyer(u.role.profile.(status := Approved)));
      && Auth.Login(users + [u], form.email, form.password) == Failure(Auth.PendingApproval)
      && Auth.Login(App.WithUserReplaced(users + [u], approved), form.email, form.password) == Success(approved)
  {
    var u := Auth.Register(users, Auth.AsLawyer, form, id).value;
    var approved := u.(role := Lawyer(u.role.profile.(status := Approved)));
    Auth.RegisteredUserLogin(users, Auth.AsLawyer, form, id);
    var after := App.WithUserReplaced(users + [u], approved);
    var ident := Auth.NormalizedIdentifier(form.email);
    assert ident == Text.ToLower(form.email);
    assert !Auth.IsEmailTaken(users, form.email);
    forall j | 0 <= j < |users| ensures !Auth.MatchesIdentifier(after[j], ident) {
      assert (users + [u])[j] == users[j];
    }
    assert after[|users|] == approved;
    assert Auth.IsFirstMatch(after, ident, |users|);
  }

  /** Once an admin bans the user an identifier finds, that identifier is
      refused as banned even with the right password. */
  lemma BanBlocksLogin(users: seq<User>, i: nat, loginIdentifier: string, loginPassword: string)
    requires Auth.IsFirstMatch(users, Auth.NormalizedIdentifier(loginIdentifier), i)
    requires users[i].password == loginPassword
    ensures Auth.Login(AdminDashboard.AccountStatusChanged(users, users[i].id, Banned), loginIdentifier, loginPassword)
         == Failure(Auth.AccountBanned)
  {
    var after := AdminDashboard.AccountStatusChanged(users, users[i].id, Banned);
    var ident := Auth.NormalizedIdentifier(loginIdentifier);
    forall j | 0 <= j < |users|
      ensures Auth.MatchesIdentifier(after[j], ident) == Auth.MatchesIdentifier(users[j], ident)
    {
    }
    assert Auth.IsFirstMatch(after, ident, i);
  }

  /** A client posts a request, a lawyer makes an offer on it, the client
      picks that lawyer, and the client's first message lands in the new
      chat between the two: one message, sent by the client. */
  lemma Consultation(posts: seq<Post>, chats: seq<Chat>, client: User, lawyer: User,
                     title: string, description: string, offer: string, cost: string, greeting: string,
                     postId: Id, commentId: Id, messageId: Id, now: string)
    requires client.role == Client && lawyer.role.Lawyer?
    requires title != [] && description != [] && offer != [] && cost != []
    requires exists k :: 0 <= k < |greeting| && !Text.IsSpace(greeting[k])
    requires forall i :: 0 <= i < |posts| ==> posts[i].id != postId
    requires App.ChatsKeyed(chats)
    requires forall i :: 0 <= i < |chats| ==> chats[i].id != App.ChatKey(client.id, lawyer.id)
    ensures
      var posted := ClientDashboard.PostSubmitted(posts, client, title, description, postId, now);
      var submission := PostCard.CommentSubmission(posted[0], lawyer, offer, cost, commentId);
      && submission.Some?
      && var offered := App.CommentAppended(posted, submission.value.postId, submission.value.comment);
      && offered[0].comments == [submission.value.comment]
      && PostCard.LawyerSelection(client, offered[0], submission.value.comment) == Some(lawyer.id)
      && var key := App.ChatKey(client.id, lawyer.id);
      var selected := App.ChatsWithSelection(chats, client.id, lawyer.id);
      && selected == chats + [Chat(key, client.id, lawyer.id, [])]
      && var sending := ChatWindow.MessageSending(selected[|chats|], client, greeting, false, messageId, now);
      && sending.Some?
      && var sent := App.MessageAppended(selected, sending.value.chatId, sending.value.message);
      && App.ChatsKeyed(sent)
      && sent[..|chats|] == chats
      && sent[|chats|].id == key && sent[|chats|].messages == [sending.value.message]
      && sending.value.message.senderId == client.id
  {
    var posted := ClientDashboard.PostSubmitted(posts, client, title, description, postId, now);
    var submission := PostCard.CommentSubmission(posted[0], lawyer, offer, cost, commentId).value;
    var offered := App.CommentAppended(posted, submission.postId, submission.comment);
    assert offered[0] == posted[0].(comments := [] + [submission.comment]);
    var key := App.ChatKey(client.id, lawyer.id);
    var selected := App.ChatsWithSelection(chats, client.id, lawyer.id);
    App.SelectionYieldsPairChat(chats, client.id, lawyer.id);
    var sending := ChatWindow.MessageSending(selected[|chats|], client, greeting, false, messageId, now).value;
    var sent := App.MessageAppended(selected, sending.chatId, sending.message);
    App.MessageKeepsChatsKeyed(selected, sending.chatId, sending.message);
    assert sent[|chats|].messages == [] + [sending.message];
    assert sent[..|chats|] == chats;
  }
}
