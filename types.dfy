/** The records the marketplace code reads and writes. The enumerations
    follow types.ts; the record shapes follow the code that builds them
    (App.tsx, PostCard.tsx, ClientDashboard.tsx and the seed data), which
    has drifted from the interfaces in types.ts. */
module Types {
  import opened Wrappers
  import Text

  /** Ids are `Date.now()` values or small literals: non-negative integers. */
  type Id = nat

  datatype Specialty = Civil | Criminal | Corporate | Family | RealEstate

  datatype LawyerStatus = Pending | Approved | Rejected

  datatype AccountStatus = Active | Banned

  /** The fields only a lawyer has. `numberOfRatings` is absent from the
      seed lawyers and from newly registered ones; the model reads that as 0. */
  datatype LawyerProfile = LawyerProfile(
    specialty: Specialty,
    status: LawyerStatus,
    rating: real,
    reviews: seq<string>,
    numberOfRatings: nat,
    wonCases: nat,
    idUrl: string)

  /** The role tag, with the lawyer's own fields attached to its variant. */
  datatype Role = Admin | Client | Lawyer(profile: LawyerProfile)

  /** A user; `phone` is optional because the seed lawyers have none. */
  datatype User = User(
    id: Id,
    email: string,
    fullName: string,
    role: Role,
    phone: Option<string>,
    password: string,
    accountStatus: AccountStatus)

  /** A lawyer's priced offer on a post. */
  datatype Comment = Comment(
    id: Id,
    lawyerId: Id,
    lawyerName: string,
    lawyerSpecialty: Specialty,
    text: string,
    cost: string)

  /** A client's consultation request. */
  datatype Post = Post(
    id: Id,
    clientId: Id,
    clientName: string,
    title: string,
    description: string,
    comments: seq<Comment>,
    createdAt: string)

  datatype ChatMessage = ChatMessage(id: Id, senderId: Id, text: string, timestamp: string)

  /** A conversation between one client and one lawyer. */
  datatype Chat = Chat(id: string, clientId: Id, lawyerId: Id, messages: seq<ChatMessage>)

  predicate IsPendingLawyer(u: User) {
    u.role.Lawyer? && u.role.profile.status == Pending
  }

  predicate IsApprovedLawyer(u: User) {
    u.role.Lawyer? && u.role.profile.status == Approved
  }

  /** No two users share an id. */
  ghost predicate UniqueUserIds(users: seq<User>) {
    forall i, j :: 0 <= i < j < |users| ==> users[i].id != users[j].id
  }

  /** No two users share an email, compared lower-cased. */
  ghost predicate UniqueEmails(users: seq<User>) {
    forall i, j :: 0 <= i < j < |users| ==> Text.ToLower(users[i].email) != Text.ToLower(users[j].email)
  }

  /** No two users share a phone number (users without one never clash). */
  ghost predicate UniquePhones(users: seq<User>) {
    forall i, j :: 0 <= i < j < |users| && users[i].phone.Some? ==> users[i].phone != users[j].phone
  }
}
