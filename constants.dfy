/** The seed store of constants.ts, which App.tsx uses as the initial
    `users`, `posts` and `chats`, with the facts that hold of it. */
module Constants {
  import opened Wrappers
  import opened Types
  import Text

  const Users: seq<User> := [
    User(1, "hhhhdddd2017@gmail.com", "المدير الخارق", Admin, Some("07700000000"), "hadisalh", Active),
    User(7, "admin2@app.com", "المشرف أحمد", Admin, Some("07711111111"), "password123", Active),
    User(2, "lawyer1@app.com", "المحامي علي",
         Lawyer(LawyerProfile(Criminal, Approved, 4.8, ["ممتاز", "سريع"], 0, 25, "#")),
         None, "password123", Active),
    User(3, "lawyer2@app.com", "المحامية فاطمة",
         Lawyer(LawyerProfile(Family, Approved, 4.9, ["متعاونة جدا"], 0, 40, "#")),
         None, "password123", Active),
    User(4, "lawyer3@app.com", "المحامي أحمد",
         Lawyer(LawyerProfile(Civil, Pending, 0.0, [], 0, 0, "#")),
         None, "password123", Active),
    User(5, "client1@app.com", "العميل خالد", Client, Some("07811111111"), "password123", Active),
    User(6, "client2@app.com", "العميلة سارة", Client, Some("07922222222"), "password123", Active)
  ]

  const Posts: seq<Post> := [
    Post(1, 5, "العميل خالد", "استشارة بخصوص عقد إيجار",
         "أحتاج مساعدة في مراجعة عقد إيجار لشقة سكنية والتأكد من قانونية جميع البنود قبل التوقيع. العقد مكون من 5 صفحات.",
         [Comment(1, 3, "المحامية فاطمة", Family,
                  "يمكنني مراجعة العقد وتقديم استشارة كاملة خلال 24 ساعة.", "75,000 دينار عراقي")],
         "2023-10-25T10:00:00.000Z"),
    Post(2, 6, "العميلة سارة", "قضية نزاع عمالي",
         "تم فصلي من العمل بشكل تعسفي وأرغب في رفع قضية على الشركة للمطالبة بحقوقي. أبحث عن محامي متخصص في القضايا العمالية.",
         [], "2023-10-26T14:30:00.000Z")
  ]

  /** The seed chat; its messages are stamped with the load time `now`. */
  function Chats(now: string): seq<Chat> {
    [Chat("client-5-lawyer-3", 5, 3, [
      ChatMessage(1, 5, "مرحبا، بخصوص عرضك على منشوري", now),
      ChatMessage(2, 3, "أهلاً بك، يسعدني مساعدتك. هل يمكنك إرسال نسخة من العقد؟", now)])]
  }

  /** Seed ids are pairwise distinct. */
  lemma SeedIdsUnique()
    ensures UniqueUserIds(Users)
  {
  }

  /** Seed emails are pairwise distinct also when compared lower-cased:
      any two already differ, lower-cased, in their first or seventh character. */
  lemma SeedEmailsUnique()
    ensures UniqueEmails(Users)
  {
    forall i, j | 0 <= i < j < |Users|
      ensures Text.ToLower(Users[i].email) != Text.ToLower(Users[j].email)
    {
      var a, b := Users[i].email, Users[j].email;
      assert Text.LowerChar(a[0]) != Text.LowerChar(b[0]) || Text.LowerChar(a[6]) != Text.LowerChar(b[6]);
      assert Text.ToLower(a)[0] != Text.ToLower(b)[0] || Text.ToLower(a)[6] != Text.ToLower(b)[6];
    }
  }

  /** Seed phones are pairwise distinct (the seed lawyers have none). */
  lemma SeedPhonesUnique()
    ensures UniquePhones(Users)
  {
  }

  /** The only seed user with id 1 is an Admin: the account the admin dashboard refuses to delete. */
  lemma SeedSuperAdmin()
    ensures exists i :: 0 <= i < |Users| && Users[i].id == 1 && Users[i].role == Admin
    ensures forall i :: 0 <= i < |Users| && Users[i].id == 1 ==> Users[i].role == Admin
  {
    assert Users[0].id == 1;
  }

  /** The seed chat joins a seed Client and a seed Approved Lawyer. */
  lemma SeedChatParticipants(now: string)
    ensures forall c :: c in Chats(now) ==>
              (exists i :: 0 <= i < |Users| && Users[i].id == c.clientId && Users[i].role == Client)
              && (exists i :: 0 <= i < |Users| && Users[i].id == c.lawyerId && IsApprovedLawyer(Users[i]))
  {
    assert Users[5].id == 5 && Users[3].id == 3;
  }

  /** Each seed post names a seed Client, whose full name is the post's `clientName`. */
  lemma SeedPostAuthors()
    ensures forall p :: p in Posts ==>
              exists i :: 0 <= i < |Users| && Users[i].id == p.clientId && Users[i].role == Client
                          && Users[i].fullName == p.clientName
  {
    assert Users[5].id == 5 && Users[6].id == 6;
  }

  /** Each seed comment names a seed Approved Lawyer, with that lawyer's name and specialty. */
  lemma SeedCommentAuthors()
    ensures forall p, c :: p in Posts && c in p.comments ==>
              exists i :: 0 <= i < |Users| && Users[i].id == c.lawyerId && IsApprovedLawyer(Users[i])
                          && Users[i].fullName == c.lawyerName
                          && Users[i].role.profile.specialty == c.lawyerSpecialty
  {
    assert Users[3].id == 3;
    assert Posts[1].comments == [];
  }
}
