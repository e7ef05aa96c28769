/** The moderation rules of components/dashboard/AdminDashboard.tsx: the
    role and status selectors, and the handlers that rewrite the store's
    users and posts through the `setUsers`/`setPosts` props. */
module AdminDashboard {
  import opened Wrappers
  import opened Types
  import Seqs
  import App

  /** The super admin, whom `deleteUser` refuses to remove. */
  const SuperAdminId: Id := 1

  /* ---------------- selectors ---------------- */

  /** `users.filter(u => u.role === UserRole.Lawyer)`. */
  function Lawyers(users: seq<User>): (r: seq<User>)
    ensures forall i :: 0 <= i < |r| ==> r[i] in users && r[i].role.Lawyer?
    ensures forall i :: 0 <= i < |users| && users[i].role.Lawyer? ==> users[i] in r
  {
    Seqs.Filter(users, (u: User) => u.role.Lawyer?)
  }

  /** `users.filter(u => u.role === UserRole.Client)`. */
  function Clients(users: seq<User>): (r: seq<User>)
    ensures forall i :: 0 <= i < |r| ==> r[i] in users && r[i].role == Client
    ensures forall i :: 0 <= i < |users| && users[i].role == Client ==> users[i] in r
  {
    Seqs.Filter(users, (u: User) => u.role == Client)
  }

  /** `users.filter(u => u.role === UserRole.Admin)`. */
  function Admins(users: seq<User>): (r: seq<User>)
    ensures forall i :: 0 <= i < |r| ==> r[i] in users && r[i].role == Admin
    ensures forall i :: 0 <= i < |users| && users[i].role == Admin ==> users[i] in r
  {
    Seqs.Filter(users, (u: User) => u.role == Admin)
  }

  /** The three role lists split the users: each user lies in exactly one,
      and their lengths add up to the number of users. */
  lemma {:induction false} RolesPartition(users: seq<User>)
    ensures |Lawyers(users)| + |Clients(users)| + |Admins(users)| == |users|
    ensures forall i :: 0 <= i < |users| ==>
              (if users[i] in Lawyers(users) then 1 else 0) + (if users[i] in Clients(users) then 1 else 0)
              + (if users[i] in Admins(users) then 1 else 0) == 1
  {
    if users != [] {
      RolesPartition(users[1..]);
    }
  }

  /** `lawyers.filter(l => l.status === LawyerStatus.Pending)`. */
  function PendingLawyers(users: seq<User>): (r: seq<User>)
    ensures forall i :: 0 <= i < |r| ==> r[i] in users && IsPendingLawyer(r[i])
    ensures forall i :: 0 <= i < |users| && IsPendingLawyer(users[i]) ==> users[i] in r
  {
    Seqs.Filter(Lawyers(users), IsPendingLawyer)
  }

  /** `lawyers.filter(l => l.status === LawyerStatus.Approved)`. */
  function RegisteredLawyers(users: seq<User>): (r: seq<User>)
    ensures forall i :: 0 <= i < |r| ==> r[i] in users && IsApprovedLawyer(r[i])
    ensures forall i :: 0 <= i < |users| && IsApprovedLawyer(users[i]) ==> users[i] in r
  {
    Seqs.Filter(Lawyers(users), IsApprovedLawyer)
  }

  /** The pending and the registered lists are disjoint sub-lists of the
      lawyers, and a rejected lawyer is in neither. */
  lemma VerificationLists(users: seq<User>)
    ensures forall u :: u in PendingLawyers(users) ==> u in Lawyers(users) && u !in RegisteredLawyers(users)
    ensures forall u :: u in RegisteredLawyers(users) ==> u in Lawyers(users) && u !in PendingLawyers(users)
    ensures forall u :: u in users && u.role.Lawyer? ==>
              (u in PendingLawyers(users) <==> u.role.profile.status == Pending)
              && (u in RegisteredLawyers(users) <==> u.role.profile.status == Approved)
  {
    var ls := Lawyers(users);
    forall u | u in PendingLawyers(users) ensures u in ls && IsPendingLawyer(u) {
      var i :| 0 <= i < |PendingLawyers(users)| && PendingLawyers(users)[i] == u;
    }
    forall u | u in RegisteredLawyers(users) ensures u in ls && IsApprovedLawyer(u) {
      var i :| 0 <= i < |RegisteredLawyers(users)| && RegisteredLawyers(users)[i] == u;
    }
    forall u | u in users && u.role.Lawyer?
      ensures IsPendingLawyer(u) ==> u in PendingLawyers(users)
      ensures IsApprovedLawyer(u) ==> u in RegisteredLawyers(users)
    {
      var i :| 0 <= i < |users| && users[i] == u;
      assert u in ls;
      var k :| 0 <= k < |ls| && ls[k] == u;
    }
  }

  /* ---------------- handlers ---------------- */

  /** `handleUserAccountStatusChange`: only the matching user's status changes. */
  function AccountStatusChanged(users: seq<User>, userId: Id, newStatus: AccountStatus): (r: seq<User>)
    ensures |r| == |users|
    ensures forall i :: 0 <= i < |users| && users[i].id == userId ==>
              r[i] == users[i].(accountStatus := newStatus)
    ensures forall i :: 0 <= i < |users| && users[i].id != userId ==> r[i] == users[i]
  {
    Seqs.Map(users, (u: User) => if u.id == userId then u.(accountStatus := newStatus) else u)
  }

  /** `deleteUser`: the super admin is refused; otherwise the user is removed
      when the confirmation dialog says yes and nothing happens when it says no. */
  function UserDeletion(users: seq<User>, userId: Id, confirmed: bool): (r: seq<User>)
    ensures userId == SuperAdminId || !confirmed ==> r == users
    ensures userId != SuperAdminId && confirmed ==> r == App.UserDeleted(users, userId)
    ensures forall i :: 0 <= i < |users| && users[i].id == SuperAdminId ==> users[i] in r
  {
    if userId == SuperAdminId then users
    else if confirmed then App.UserDeleted(users, userId)
    else users
  }

  /** `deletePost`: the posts with that id go when confirmed, nothing otherwise. */
  function PostDeletion(posts: seq<Post>, postId: Id, confirmed: bool): (r: seq<Post>)
    ensures !confirmed ==> r == posts
    ensures confirmed ==> r == App.PostDeleted(posts, postId)
    ensures confirmed ==> forall i :: 0 <= i < |r| ==> r[i].id != postId && r[i] in posts
    ensures confirmed ==> forall i :: 0 <= i < |posts| && posts[i].id != postId ==> posts[i] in r
  {
    if confirmed then App.PostDeleted(posts, postId) else posts
  }

  /** The add-admin form. */
  datatype AdminForm = AdminForm(name: string, email: string, phone: string, password: string)

  predicate HasEmptyField(form: AdminForm) {
    form.name == [] || form.email == [] || form.phone == [] || form.password == []
  }

  /** `handleAddAdmin`: with every field filled, one Active admin with the
      form's values is appended; there is no duplicate check. */
  function AdminAdded(users: seq<User>, form: AdminForm, id: Id): (r: seq<User>)
    ensures HasEmptyField(form) ==> r == users
    ensures !HasEmptyField(form) ==>
              && |r| == |users| + 1 && r[..|users|] == users
              && r[|users|].role == Admin && r[|users|].accountStatus == Active && r[|users|].id == id
              && r[|users|].fullName == form.name && r[|users|].email == form.email
              && r[|users|].phone == Some(form.phone) && r[|users|].password == form.password
  {
    if HasEmptyField(form) then users
    else users + [User(id, form.email, form.name, Admin, Some(form.phone), form.password, Active)]
  }

  /** An added admin may share an email with an existing user: the uniqueness
      that sign-up guards is not guarded here. */
  lemma AddAdminSkipsDuplicateCheck(users: seq<User>, form: AdminForm, id: Id)
    requires !HasEmptyField(form) && UniqueEmails(users)
    requires exists i :: 0 <= i < |users| && users[i].email == form.email
    ensures !UniqueEmails(AdminAdded(users, form, id))
  {
    var r := AdminAdded(users, form, id);
    var i :| 0 <= i < |users| && users[i].email == form.email;
    assert r[i] == users[i];
    assert r[i].email == r[|users|].email;
  }

  /** The admin dashboard acting on the application store it was handed. */
  class Dashboard {
    const store: App.Store

    constructor (store: App.Store)
      ensures this.store == store
    {
      this.store := store;
    }

    method ChangeAccountStatus(userId: Id, newStatus: AccountStatus)
      requires store.Valid()
      modifies store
      ensures store.Valid()
      ensures store.users == AccountStatusChanged(old(store.users), userId, newStatus)
      ensures store.posts == old(store.posts) && store.chats == old(store.chats)
      ensures store.currentUser == old(store.currentUser) && store.activeChatId == old(store.activeChatId)
    {
      store.users := AccountStatusChanged(store.users, userId, newStatus);
    }

    /** `confirmed` is the answer to `window.confirm`. */
    method DeleteUser(userId: Id, confirmed: bool)
      requires store.Valid()
      modifies store
      ensures store.Valid()
      ensures store.users == UserDeletion(old(store.users), userId, confirmed)
      ensures store.posts == old(store.posts) && store.chats == old(store.chats)
      ensures store.currentUser == old(store.currentUser) && store.activeChatId == old(store.activeChatId)
    {
      if userId == SuperAdminId {
        return;
      }
      if confirmed {
        store.users := App.UserDeleted(store.users, userId);
      }
    }

    /** `confirmed` is the answer to `window.confirm`. */
    method DeletePost(postId: Id, confirmed: bool)
      requires store.Valid()
      modifies store
      ensures store.Valid()
      ensures store.posts == PostDeletion(old(store.posts), postId, confirmed)
      ensures store.users == old(store.users) && store.chats == old(store.chats)
      ensures store.currentUser == old(store.currentUser) && store.activeChatId == old(store.activeChatId)
    {
      if confirmed {
        store.posts := App.PostDeleted(store.posts, postId);
      }
    }

    /** `added` is false exactly when the form shows its missing-fields error. */
    method AddAdmin(form: AdminForm, id: Id) returns (added: bool)
      requires store.Valid()
      modifies store
      ensures store.Valid()
      ensures added == !HasEmptyField(form)
      ensures store.users == AdminAdded(old(store.users), form, id)
      ensures store.posts == old(store.posts) && store.chats == old(store.chats)
      ensures store.currentUser == old(store.currentUser) && store.activeChatId == old(store.activeChatId)
    {
      if HasEmptyField(form) {
        return false;
      }
      var newAdmin := User(id, form.email, form.name, Admin, Some(form.phone), form.password, Active);
      store.users := store.users + [newAdmin];
      added := true;
    }
  }
}
