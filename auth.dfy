/** The sign-in and sign-up decisions of components/Auth.tsx. The error
    messages the form shows become the error variants; `onLogin` and
    `onRegister` are called exactly when these functions succeed. */
module Auth {
  import opened Wrappers
  import opened Types
  import Seqs
  import Text

  /* ---------------- login ---------------- */

  /** The rejections of `handleLogin`, in the order they are checked. */
  datatype LoginError = UnknownIdentifier | WrongPassword | AccountBanned | PendingApproval

  /** `r` is a slice of `s` with only white space cut off either side, lower-cased. */
  ghost predicate IsLowerCoreOf(r: string, s: string) {
    exists i, j ::
      && 0 <= i <= j <= |s| && r == Text.ToLower(s[i..j])
      && (forall k :: 0 <= k < i ==> Text.IsSpace(s[k]))
      && (forall k :: j <= k < |s| ==> Text.IsSpace(s[k]))
  }

  /** `loginIdentifier.trim().toLowerCase()`: the input with white space cut
      off either side, lower-cased, so that no white space is left at either
      end and no upper-case letter anywhere. */
  function NormalizedIdentifier(loginIdentifier: string): (r: string)
    ensures IsLowerCoreOf(r, loginIdentifier)
    ensures |r| <= |loginIdentifier|
    ensures forall i :: 0 <= i < |r| ==> !('A' <= r[i] <= 'Z')
    ensures r != [] ==> !Text.IsSpace(r[0]) && !Text.IsSpace(r[|r| - 1])
  {
    Text.TrimIsCore(loginIdentifier);
    Text.ToLower(Text.Trim(loginIdentifier))
  }

  /** Normalising an identifier that is already normalised changes nothing. */
  lemma NormalizedIdentifierIdempotent(loginIdentifier: string)
    ensures NormalizedIdentifier(NormalizedIdentifier(loginIdentifier)) == NormalizedIdentifier(loginIdentifier)
  {
    var r := NormalizedIdentifier(loginIdentifier);
    Text.TrimUnchanged(r);
    Text.ToLowerUnchanged(r);
  }

  /** The lookup condition: the lower-cased email, or the phone exactly. */
  predicate MatchesIdentifier(u: User, identifier: string) {
    Text.ToLower(u.email) == identifier || u.phone == Some(identifier)
  }

  /** Whether `users[i]` is the user `users.find` returns for `identifier`. */
  ghost predicate IsFirstMatch(users: seq<User>, identifier: string, i: int) {
    0 <= i < |users| && MatchesIdentifier(users[i], identifier)
    && forall j :: 0 <= j < i ==> !MatchesIdentifier(users[j], identifier)
  }

  /** `users.find(u => u.email.toLowerCase() === identifier || u.phone === identifier)`. */
  function FindUser(users: seq<User>, identifier: string): (r: Option<User>)
    ensures r.None? <==> forall i :: 0 <= i < |users| ==> !MatchesIdentifier(users[i], identifier)
    ensures forall i :: IsFirstMatch(users, identifier, i) ==> r == Some(users[i])
  {
    match Seqs.FindIndex(users, (u: User) => MatchesIdentifier(u, identifier))
    case None => None
    case Some(k) =>
      assert forall i :: IsFirstMatch(users, identifier, i) ==> i == k by {
        forall i | IsFirstMatch(users, identifier, i) ensures i == k {
        }
      }
      Some(users[k])
  }

  /** Whenever some user matches, one of them is the first match. */
  lemma SomeFirstMatch(users: seq<User>, identifier: string, j: nat)
    requires j < |users| && MatchesIdentifier(users[j], identifier)
    ensures exists i :: IsFirstMatch(users, identifier, i)
  {
    var k := Seqs.FindIndex(users, (u: User) => MatchesIdentifier(u, identifier));
    assert IsFirstMatch(users, identifier, k.value);
  }

  /** The checks `handleLogin` runs on the user it found, in source order:
      password, then ban, then pending approval. */
  function CheckAccount(user: User, loginPassword: string): (r: Result<User, LoginError>)
    ensures r != Failure(UnknownIdentifier)
    ensures r == Failure(WrongPassword) <==> user.password != loginPassword
    ensures r == Failure(AccountBanned) <==> user.password == loginPassword && user.accountStatus == Banned
    ensures r == Failure(PendingApproval) <==>
              user.password == loginPassword && user.accountStatus != Banned && IsPendingLawyer(user)
    ensures r.Success? <==>
              user.password == loginPassword && user.accountStatus != Banned && !IsPendingLawyer(user)
    ensures r.Success? ==> r.value == user
  {
    if user.password != loginPassword then Failure(WrongPassword)
    else if user.accountStatus == Banned then Failure(AccountBanned)
    else if IsPendingLawyer(user) then Failure(PendingApproval)
    else Success(user)
  }

  /** `handleLogin`: an unknown identifier, or the checks on the first user it matches. */
  function Login(users: seq<User>, loginIdentifier: string, loginPassword: string): (r: Result<User, LoginError>)
    ensures r == Failure(UnknownIdentifier) <==>
              forall i :: 0 <= i < |users| ==> !MatchesIdentifier(users[i], NormalizedIdentifier(loginIdentifier))
    ensures forall i :: IsFirstMatch(users, NormalizedIdentifier(loginIdentifier), i) ==>
              r == CheckAccount(users[i], loginPassword)
  {
    match FindUser(users, NormalizedIdentifier(loginIdentifier))
    case None => Failure(UnknownIdentifier)
    case Some(user) => CheckAccount(user, loginPassword)
  }

  /** Login succeeds exactly for a matching user with the right password who
      is neither banned nor a pending lawyer; a rejected lawyer gets in. */
  lemma LoginSucceedsIff(users: seq<User>, loginIdentifier: string, loginPassword: string)
    ensures Login(users, loginIdentifier, loginPassword).Success? <==>
      exists i :: IsFirstMatch(users, NormalizedIdentifier(loginIdentifier), i)
        && users[i].password == loginPassword && users[i].accountStatus == Active
        && (users[i].role.Lawyer? ==> users[i].role.profile.status in {Approved, Rejected})
  {
    var id := NormalizedIdentifier(loginIdentifier);
    var r := Login(users, loginIdentifier, loginPassword);
    if r.Success? {
      assert r != Failure(UnknownIdentifier);
      var j :| 0 <= j < |users| && MatchesIdentifier(users[j], id);
      SomeFirstMatch(users, id, j);
    }
  }

  /** With unique lower-cased emails and no phone equal to it, an identifier
      that normalises to a user's lower-cased email finds that user. */
  lemma EmailFindsItsUser(users: seq<User>, i: nat, loginIdentifier: string)
    requires i < |users| && UniqueEmails(users)
    requires NormalizedIdentifier(loginIdentifier) == Text.ToLower(users[i].email)
    requires forall j :: 0 <= j < |users| ==> users[j].phone != Some(Text.ToLower(users[i].email))
    ensures FindUser(users, NormalizedIdentifier(loginIdentifier)) == Some(users[i])
  {
    var id := NormalizedIdentifier(loginIdentifier);
    forall j | 0 <= j < |users| && j != i
      ensures !MatchesIdentifier(users[j], id)
    {
      if j < i {
        assert Text.ToLower(users[j].email) != Text.ToLower(users[i].email);
      } else {
        assert Text.ToLower(users[i].email) != Text.ToLower(users[j].email);
      }
    }
    assert IsFirstMatch(users, id, i);
  }

  /** A user's email typed in any letter case and with white space around it
      finds that user, when lower-cased emails are unique and no phone equals
      the lower-cased email. */
  lemma PaddedEmailFindsItsUser(users: seq<User>, i: nat, pre: string, typed: string, post: string)
    requires i < |users| && UniqueEmails(users)
    requires forall j :: 0 <= j < |users| ==> users[j].phone != Some(Text.ToLower(users[i].email))
    requires forall k :: 0 <= k < |pre| ==> Text.IsSpace(pre[k])
    requires forall k :: 0 <= k < |post| ==> Text.IsSpace(post[k])
    requires typed != [] ==> !Text.IsSpace(typed[0]) && !Text.IsSpace(typed[|typed| - 1])
    requires Text.ToLower(typed) == Text.ToLower(users[i].email)
    ensures FindUser(users, NormalizedIdentifier(pre + typed + post)) == Some(users[i])
  {
    Text.TrimPadded(pre, typed, post);
    EmailFindsItsUser(users, i, pre + typed + post);
  }

  /* ---------------- registration ---------------- */

  /** The two sign-up tabs. */
  datatype RegisterAs = AsClient | AsLawyer

  /** The sign-up form's fields; `idUrl` is the object URL of the uploaded ID document, or empty. */
  datatype RegisterForm = RegisterForm(
    fullName: string,
    email: string,
    phone: string,
    password: string,
    specialty: Specialty,
    idUrl: string)

  /** The rejections of `handleRegister`, in the order they are checked. */
  datatype RegisterError = MissingFields | EmailTaken | PhoneTaken | MissingIdDocument

  /** `!regFullName || !regEmail || !regPhone || !regPassword`. */
  predicate HasEmptyField(form: RegisterForm) {
    form.fullName == [] || form.email == [] || form.phone == [] || form.password == []
  }

  /** `users.some(u => u.email.toLowerCase() === regEmail.toLowerCase())`. */
  predicate IsEmailTaken(users: seq<User>, email: string) {
    exists i :: 0 <= i < |users| && Text.ToLower(users[i].email) == Text.ToLower(email)
  }

  /** `users.some(u => u.phone === regPhone)`. */
  predicate IsPhoneTaken(users: seq<User>, phone: string) {
    exists i :: 0 <= i < |users| && users[i].phone == Some(phone)
  }

  /** `handleRegister`: the new user handed to `onRegister`, or the first check
      that fails. `Date.now()` is the parameter `id`. */
  function Register(users: seq<User>, registerAs: RegisterAs, form: RegisterForm, id: Id): (r: Result<User, RegisterError>)
    ensures r == Failure(MissingFields) <==> HasEmptyField(form)
    ensures r == Failure(EmailTaken) <==> !HasEmptyField(form) && IsEmailTaken(users, form.email)
    ensures r == Failure(PhoneTaken) <==>
              !HasEmptyField(form) && !IsEmailTaken(users, form.email) && IsPhoneTaken(users, form.phone)
    ensures r == Failure(MissingIdDocument) <==>
              && !HasEmptyField(form) && !IsEmailTaken(users, form.email) && !IsPhoneTaken(users, form.phone)
              && registerAs == AsLawyer && form.idUrl == []
    ensures r.Success? ==>
              && r.value.id == id && r.value.fullName == form.fullName && r.value.email == form.email
              && r.value.phone == Some(form.phone) && r.value.password == form.password
              && r.value.accountStatus == Active
    ensures r.Success? && registerAs == AsClient ==> r.value.role == Client
    ensures r.Success? && registerAs == AsLawyer ==>
              r.value.role == Lawyer(LawyerProfile(form.specialty, Pending, 0.0, [], 0, 0, form.idUrl))
  {
    if HasEmptyField(form) then Failure(MissingFields)
    else if IsEmailTaken(users, form.email) then Failure(EmailTaken)
    else if IsPhoneTaken(users, form.phone) then Failure(PhoneTaken)
    else
      var baseUser := User(id, form.email, form.fullName, Client, Some(form.phone), form.password, Active);
      match registerAs
      case AsClient => Success(baseUser)
      case AsLawyer =>
        if form.idUrl == [] then Failure(MissingIdDocument)
        else Success(baseUser.(role := Lawyer(LawyerProfile(form.specialty, Pending, 0.0, [], 0, 0, form.idUrl))))
  }

  /** A successful registration appended to a store with unique ids, emails
      and phones keeps all three unique, provided `Date.now()` was fresh. */
  lemma RegisterKeepsUsersUnique(users: seq<User>, registerAs: RegisterAs, form: RegisterForm, id: Id)
    requires UniqueUserIds(users) && UniqueEmails(users) && UniquePhones(users)
    requires forall i :: 0 <= i < |users| ==> users[i].id != id
    requires Register(users, registerAs, form, id).Success?
    ensures var all := users + [Register(users, registerAs, form, id).value];
      UniqueUserIds(all) && UniqueEmails(all) && UniquePhones(all)
  {
    var u := Register(users, registerAs, form, id).value;
    var all := users + [u];
    assert !IsEmailTaken(users, form.email) && !IsPhoneTaken(users, form.phone);
    forall i | 0 <= i < |users|
      ensures Text.ToLower(all[i].email) != Text.ToLower(u.email)
      ensures all[i].phone.Some? ==> all[i].phone != u.phone
    {
      assert all[i] == users[i];
    }
  }

  /** A user who just registered signs in with the email and password they
      gave: a client is let in, a lawyer is held back pending approval. */
  lemma RegisteredUserLogin(users: seq<User>, registerAs: RegisterAs, form: RegisterForm, id: Id)
    requires Register(users, registerAs, form, id).Success?
    requires Text.Trim(form.email) == form.email
    requires forall j :: 0 <= j < |users| ==> users[j].phone != Some(Text.ToLower(form.email))
    ensures var u := Register(users, registerAs, form, id).value;
      Login(users + [u], form.email, form.password)
        == if registerAs == AsClient then Success(u) else Failure(PendingApproval)
  {
    var u := Register(users, registerAs, form, id).value;
    var all := users + [u];
    var ident := NormalizedIdentifier(form.email);
    assert ident == Text.ToLower(form.email);
    assert !IsEmailTaken(users, form.email);
    forall j | 0 <= j < |users| ensures !MatchesIdentifier(all[j], ident) {
      assert all[j] == users[j];
    }
    assert IsFirstMatch(all, ident, |users|);
  }
}
