# Find-Lawyers marketplace store: a Dafny model

This project models the logic core of a legal-services marketplace front end.
Clients post consultation requests. Lawyers answer them with priced offers. A
client who picks an offer opens a chat with that lawyer. Admins moderate accounts,
lawyer verification and posts. All state is one in-memory store seeded from
constants, and every change replaces a whole collection.

The model has one module per source file:

- `App` (App.tsx). The store's handlers are pure whole-sequence transforms,
  such as `WithUserReplaced`, `ChatsWithSelection` and `LawyerRated`. The class
  `App.Store` owns `users`, `posts`, `chats`, `currentUser` and `activeChatId`,
  and each of its methods applies one transform. `Store.Valid()` is the store
  invariant: every chat's id is the key of its own client/lawyer pair, and no
  two chats share an id.
- `Auth` (components/Auth.tsx). The login decision chain and the sign-up
  validation, as functions that return the user or the first error.
- `AdminDashboard` (components/dashboard/AdminDashboard.tsx). The role and
  verification selectors and the moderation handlers, as functions. The class
  `AdminDashboard.Dashboard` applies them to the `App.Store` it is given,
  the way the component gets `setUsers`/`setPosts`.
- `ClientDashboard`, `PostCard`, `ChatWindow`. Guards, record construction,
  selectors and previews, as functions.
- `Constants` (constants.ts). The seed users, posts and chat, with lemmas
  about them.
- `Scenarios`. Lemmas that walk through several components at once.
- Helper modules: `Wrappers`, `Seqs` (`map`/`filter`/`find`), `Text` (`trim`,
  `toLowerCase`, and rendering a number in a template literal) and `Types` (the
  records).

These are inputs, not computed: `Date.now()` ids, ISO timestamps,
`window.confirm` answers and the object URL of an uploaded ID document are all
parameters. Ids are non-negative integers. A lawyer's own fields sit on the
`Lawyer` variant of `Role`. `phone` is optional because the seed lawyers have
none.

The model follows the code as written:
- Chat ids are `client-<clientId>-lawyer-<lawyerId>` (App.tsx:96).
- Rating applies to any user with the Lawyer role, whatever the verification
  status (App.tsx:118).
- Sending to an unknown chat, and commenting on an unknown post, are silent no-ops.
- The account-status change guards neither the super admin nor the acting
  admin's own account (components/dashboard/AdminDashboard.tsx:32-36); only deletion protects id 1.
- Adding an admin performs no duplicate check.
- Records have the fields the code writes (`clientId`/`clientName`,
  `lawyerId`/`lawyerName`), not the ones types.ts declares (`authorId`,
  `participantIds`).

## Model

| member | source | states |
|---|---|---|
| App.WithUserReplaced | App.tsx:52-53 | length and order kept; exactly the users whose id equals the updated id become the updated user; all others unchanged |
| App.ReplaceKeepsIds | App.tsx:53 | a user update keeps every position's id, so unique ids stay unique |
| App.ReplaceUnknownOrTwice | App.tsx:53 | updating an id nobody has changes nothing; applying the same update twice equals applying it once |
| App.BatchMap | App.tsx:61 | the Map built from the batch has exactly the batch's ids as keys, each bound to the LAST batch entry with that id |
| App.LastIndexWithId | App.tsx:61 | finds the last batch position with a given id, or reports that none has it |
| App.WithUsersBatchUpdated | App.tsx:60-63 | length and order kept; a user whose id is not in the batch is unchanged; otherwise it becomes the last batch entry with its id |
| App.UserDeleted | App.tsx:65-67 | no survivor has the deleted id; every survivor comes from the old list; every user with another id survives; the list does not grow (with DeleteKeepsOrder this fixes each survivor to appear once, in order) |
| App.DeleteUnknownUser | App.tsx:66 | deleting an id nobody has leaves the users unchanged |
| App.DeleteUndoesRegister | App.tsx:48-67 | registering a user with a fresh id appends it at the end, and deleting that id gives the old list back |
| App.DeleteKeepsOrder | App.tsx:66 | deletion distributes over concatenation, so survivors keep their relative order |
| App.PostAdded | App.tsx:69-77 | the new post is first, with the draft's fields, the given id and time, and no comments; the rest is the old list unchanged |
| App.WithPostReplaced | App.tsx:79-81 | length kept; exactly the posts with the updated id are replaced |
| App.PostDeleted | App.tsx:83-85 | exactly the posts with that id are removed; the others survive; the list does not grow (with PostDeleteKeepsOrder this fixes each survivor to appear once, in order) |
| App.PostDeleteKeepsOrder | App.tsx:84 | post deletion distributes over concatenation, so the surviving posts keep their newest-first order |
| App.DeleteUndoesAddPost | App.tsx:69-85 | deleting a freshly added post restores the previous list |
| App.CommentAppended | App.tsx:87-91 | the comment is appended to the comments of the posts with that id only; every other post is unchanged |
| App.CommentCount | App.tsx:87-91 | the total number of comments grows by the number of posts with that id: 0 for an unknown id, 1 when ids are unique |
| App.ChatKey | App.tsx:96 | the key is `client-`, then the client id as decimal digits that read back as that id, then `-lawyer-`, then the lawyer id likewise |
| App.SplitAtNonDigit | App.tsx:96 | a string of digits followed by a non-digit separator splits in only one way (the step that makes the chat key readable back) |
| App.ChatKeyInjective | App.tsx:96 | `client-${clientId}-lawyer-${lawyerId}` determines both ids: different pairs get different chat ids |
| App.KeyedChatsPerPair | App.tsx:96-105 | in a keyed chat list, a chat id names one chat, and one client/lawyer pair has at most one chat |
| App.ChatsWithSelection | App.tsx:96-106 | if a chat with the pair's key exists the list is unchanged; otherwise one chat with that key, that pair and no messages is appended |
| App.SelectionIdempotent | App.tsx:98-106 | selecting the same lawyer twice adds at most one chat: the second selection changes nothing |
| App.SelectionYieldsPairChat | App.tsx:93-107 | selection keeps the chats keyed, and afterwards the chat carrying the key is between that client and that lawyer |
| App.MessageAppended | App.tsx:110-114 | the message is appended to the chats with that id only; length and every other chat unchanged |
| App.MessageKeepsChatsKeyed | App.tsx:110-114 | appending a message keeps the chats keyed; an unknown chat id changes nothing |
| App.Rated | App.tsx:118-131 | the rating count goes up by exactly 1; the total rating points grow by exactly the new rating; the trimmed review is appended iff it is not blank; specialty, status, won cases and ID document are kept |
| App.LawyerRated | App.tsx:116-134 | only users with that id AND the Lawyer role are rated; every other user is unchanged; length kept |
| App.RatingPoints | App.tsx:122-123 | after a sequence of ratings, count and total rating points have grown by their number and their sum |
| App.RatingIsMean | App.tsx:122-129 | starting from no ratings, the stored rating is the mean of all ratings given and the count is their number |
| App.SeedChatsKeyed | constants.ts:44-46 | the seed chat's id is the key `handleSelectLawyer` computes for its client/lawyer pair, so the seed store satisfies the invariant |
| App.Store.constructor | App.tsx:20-23 | the store starts as the seed users, posts and chats, with no active chat, and satisfies the invariant |
| App.Store.LogIn | App.tsx:40-42 | sets the signed-in user and nothing else |
| App.Store.LogOut | App.tsx:44-46 | clears the signed-in user and nothing else |
| App.Store.Register | App.tsx:48-50 | the new user is appended at the end; every existing user is kept in order; nothing else changes |
| App.Store.UpdateUser | App.tsx:52-58 | users are updated as by WithUserReplaced; the signed-in user becomes the updated one exactly when the ids match |
| App.Store.UpdateUsersBatch | App.tsx:60-63 | users are updated as by WithUsersBatchUpdated; nothing else changes |
| App.Store.DeleteUser | App.tsx:65-67 | users are filtered as by UserDeleted; nothing else changes |
| App.Store.AddPost | App.tsx:69-77 | posts are replaced by PostAdded; nothing else changes |
| App.Store.UpdatePost | App.tsx:79-81 | posts are replaced by WithPostReplaced; nothing else changes |
| App.Store.DeletePost | App.tsx:83-85 | posts are filtered as by PostDeleted; nothing else changes |
| App.Store.SubmitComment | App.tsx:87-91 | posts are replaced by CommentAppended; nothing else changes |
| App.Store.SelectLawyer | App.tsx:93-108 | a no-op unless a Client is signed in; otherwise chats become ChatsWithSelection and the active chat is the pair's key; the invariant is kept |
| App.Store.SendMessage | App.tsx:110-114 | chats are replaced by MessageAppended; the invariant is kept |
| App.Store.RateLawyer | App.tsx:116-134 | users are replaced by LawyerRated; nothing else changes |
| Auth.NormalizedIdentifier | components/Auth.tsx:41 | the normalised identifier is a slice of the input with only white space cut off either side, lower-cased; it has no ASCII upper-case letter and neither starts nor ends with white space |
| Auth.NormalizedIdentifierIdempotent | components/Auth.tsx:41 | normalising an already normalised identifier changes nothing |
| Auth.FindUser | components/Auth.tsx:43-45 | the first user whose lower-cased email equals the identifier, or whose phone equals it exactly; none iff no user matches |
| Auth.SomeFirstMatch | components/Auth.tsx:43-45 | if any user matches the identifier, one of them is the first match |
| Auth.CheckAccount | components/Auth.tsx:52-67 | the checks on the found user, in order: wrong password, then banned, then pending lawyer, then success with that user |
| Auth.Login | components/Auth.tsx:38-68 | identifier trimmed and lower-cased; unknown identifier iff no user matches; otherwise the first match decides, so a banned user with a wrong password gets the password error |
| Auth.LoginSucceedsIff | components/Auth.tsx:47-67 | `onLogin` is reached iff the first match has the right password, is Active, and is not a Pending lawyer (Approved or Rejected lawyers get in) |
| Auth.EmailFindsItsUser | components/Auth.tsx:41-45 | with unique lower-cased emails and no phone equal to it, an identifier that normalises to a user's lower-cased email finds that user |
| Auth.PaddedEmailFindsItsUser | components/Auth.tsx:41-45 | with unique lower-cased emails and no phone equal to it, a user's email typed in any letter case and with white space around it finds that user |
| Auth.Register | components/Auth.tsx:70-107 | errors in check order: an empty name/email/phone/password, then a duplicate email (case-insensitive), then a duplicate phone (exact), then a lawyer without an ID document; on success the new user is Active with the form's values, and a lawyer is Pending with rating 0, no reviews, 0 won cases and the document URL |
| Auth.RegisterKeepsUsersUnique | components/Auth.tsx:78-85 | appending a successfully registered user with a fresh id keeps ids, lower-cased emails and phones unique |
| Auth.RegisteredUserLogin | components/Auth.tsx:41-105 | a user who just registered logs in with their email and password: a client gets in, a new lawyer is held back as pending |
| AdminDashboard.Lawyers | components/dashboard/AdminDashboard.tsx:25 | exactly the users with the Lawyer role |
| AdminDashboard.Clients | components/dashboard/AdminDashboard.tsx:26 | exactly the users with the Client role |
| AdminDashboard.Admins | components/dashboard/AdminDashboard.tsx:27 | exactly the users with the Admin role |
| AdminDashboard.PendingLawyers | components/dashboard/AdminDashboard.tsx:29 | exactly the users who are lawyers awaiting verification |
| AdminDashboard.RegisteredLawyers | components/dashboard/AdminDashboard.tsx:30 | exactly the users who are approved lawyers |
| AdminDashboard.RolesPartition | components/dashboard/AdminDashboard.tsx:25-27 | every user is in exactly one of the three lists, and their lengths add up to the number of users |
| AdminDashboard.VerificationLists | components/dashboard/AdminDashboard.tsx:29-30 | pending and registered lawyers are disjoint sub-lists of the lawyers, holding exactly the Pending and the Approved ones; rejected lawyers are in neither |
| AdminDashboard.AccountStatusChanged | components/dashboard/AdminDashboard.tsx:32-36 | only the users with that id get the new account status, with every other field kept; all other users unchanged |
| AdminDashboard.UserDeletion | components/dashboard/AdminDashboard.tsx:38-43 | id 1 is never removed; another id is removed only when confirmed; if not confirmed the users are unchanged |
| AdminDashboard.PostDeletion | components/dashboard/AdminDashboard.tsx:45-49 | when confirmed, the posts become App.PostDeleted, so exactly the posts with that id go; otherwise the posts are unchanged |
| AdminDashboard.AdminAdded | components/dashboard/AdminDashboard.tsx:51-66 | users unchanged if any of the four fields is empty; otherwise exactly one Active Admin with the given fields is appended |
| AdminDashboard.AddAdminSkipsDuplicateCheck | components/dashboard/AdminDashboard.tsx:54-66 | adding an admin whose email is already used breaks email uniqueness: no duplicate check is made |
| AdminDashboard.Dashboard.constructor | components/dashboard/AdminDashboard.tsx:16 | the dashboard acts on the store it is given |
| AdminDashboard.Dashboard.ChangeAccountStatus | components/dashboard/AdminDashboard.tsx:32-36 | the store's users become AccountStatusChanged; nothing else changes |
| AdminDashboard.Dashboard.DeleteUser | components/dashboard/AdminDashboard.tsx:38-43 | the store's users become UserDeletion; nothing else changes |
| AdminDashboard.Dashboard.DeletePost | components/dashboard/AdminDashboard.tsx:45-49 | the store's posts become PostDeletion; nothing else changes |
| AdminDashboard.Dashboard.AddAdmin | components/dashboard/AdminDashboard.tsx:51-69 | reports success iff no field is empty; the store's users become AdminAdded |
| ClientDashboard.PostSubmitted | components/dashboard/ClientDashboard.tsx:21-35 | nothing if the title or the description is empty; otherwise a post by the current user (id and full name) with the given title and description and no comments is put first, with the old posts after it in order |
| ClientDashboard.ClientChats | components/dashboard/ClientDashboard.tsx:44 | exactly the chats whose client is the current user |
| ClientDashboard.BrowsableLawyers | components/dashboard/ClientDashboard.tsx:45 | exactly the lawyers whose verification status is Approved |
| ClientDashboard.ChatLawyerName | components/dashboard/ClientDashboard.tsx:106-118 | the first Approved lawyer with the chat's lawyer id gives the name shown, or the fallback label when that name is empty; with no such lawyer the fallback is shown; any other name shown belongs to such a lawyer |
| ClientDashboard.ChatPreview | components/dashboard/ClientDashboard.tsx:107-120 | the placeholder for a chat without messages; otherwise the preview is "أنت: " followed by the last message's text iff the current user sent it, and the bare text iff someone else did |
| ClientDashboard.PreviewMarksOwnMessage | components/dashboard/ClientDashboard.tsx:120 | when the text itself does not start with the prefix, the preview starts with "أنت: " iff the last message is the current user's |
| PostCard.CommentSubmission | components/common/PostCard.tsx:17-30 | a submission happens iff text and cost are non-empty and the current user is a Lawyer; it targets this card's post id and carries the lawyer's id, name and specialty and the text and cost as entered; at most one per submit |
| PostCard.IsClientOwner | components/common/PostCard.tsx:35 | the current user is a Client and the post's owner |
| PostCard.LawyerSelection | components/common/PostCard.tsx:35-76 | offered iff the current user is a Client whose id is the post's clientId (isClientOwner); it passes the offer's lawyerId |
| ChatWindow.MessageSending | components/chat/ChatWindow.tsx:24-35 | a message is sent iff the window is not read-only and the text has a non-white-space character; it goes to this chat's id, from the current user, with the text untrimmed; at most one per submit |
| ChatWindow.IsMyMessage | components/chat/ChatWindow.tsx:39-45 | in the read-only view, messages from the chat's lawyer are drawn as one's own; otherwise messages from the current user are |
| ChatWindow.SentMessageIsMine | components/chat/ChatWindow.tsx:39-45 | a message sent from a window is drawn as one's own there; in read-only mode attribution follows the chat's lawyer, whoever views it |
| Constants.Users | constants.ts:3-17 | the seven seed users with their ids, emails, names, roles, phones, passwords and lawyer profiles |
| Constants.Posts | constants.ts:19-40 | the two seed posts, the first with one offer |
| Constants.Chats | constants.ts:42-52 | the seed chat between client 5 and lawyer 3, with its two messages stamped at load time |
| Constants.SeedIdsUnique | constants.ts:3-17 | seed user ids are pairwise distinct |
| Constants.SeedEmailsUnique | constants.ts:3-17 | seed emails are pairwise distinct when lower-cased |
| Constants.SeedPhonesUnique | constants.ts:3-17 | seed phones are pairwise distinct |
| Constants.SeedSuperAdmin | constants.ts:5 | the only seed user with id 1 is an Admin, the account the delete guard protects |
| Constants.SeedChatParticipants | constants.ts:11-46 | the seed chat's client is a seed Client and its lawyer a seed Approved Lawyer |
| Constants.SeedPostAuthors | constants.ts:15-34 | each seed post's clientId names a seed Client whose full name is the post's clientName |
| Constants.SeedCommentAuthors | constants.ts:11-27 | the seed comment's lawyerId names an Approved Lawyer with that name and specialty |
| Scenarios.ApprovalLetsLawyerIn | components/Auth.tsx:62-67 | a newly registered lawyer's login fails as pending; after the account is edited to Approved, the same login succeeds |
| Scenarios.BanBlocksLogin | components/dashboard/AdminDashboard.tsx:32-36 | after an admin bans the user an identifier finds, logging in with the right password fails as banned |
| Scenarios.Consultation | App.tsx:87-114 | post, offer, lawyer selection and first message: the new post holds the one offer; the owner can select the lawyer; a chat with no messages is created for the pair; after the client's message it holds exactly that message, sent by the client |

## Left out

- All JSX rendering, tabs, modal layout and styling, and the alert texts.
- `localStorage` persistence of the signed-in user and of the disclaimer flag
  (App.tsx:14-38), and the theme storage: browser I/O. The constructor takes
  the saved user as a parameter.
- UI-only state in App.tsx (`adminViewingChatId`, `viewingLawyerProfile`,
  `editingUser`), and the chat-window title lookups (App.tsx:153-190).
- App.Rated: does not round the mean to one decimal (`toFixed(1)`/`parseFloat`),
  because the model uses exact `real` arithmetic. So RatingIsMean holds exactly,
  while the source's rounded running mean drifts from the true mean.
- App.RatingPoints, App.RatingIsMean: the running totals and the mean are those
  of the unrounded model of App.Rated, with a missing count read as 0; the
  source's `toFixed(1)` rounding and its `NaN` count are not tracked.
- App.Rated: a missing `numberOfRatings` is read as 0. The seed lawyers and newly
  registered lawyers have no such field (constants.ts:10-12, components/Auth.tsx:104).
  JavaScript would compute `NaN` there, so the source's first rating of such a
  lawyer stores rating 0 and count `NaN`.
- Auth.NormalizedIdentifier, Auth.Login: `toLowerCase` maps only ASCII letters. Full Unicode case mapping
  is not modelled. Arabic text has no case.
- Auth.Register: the same ASCII-only `toLowerCase` applies to the duplicate-email check.
- App.ChatKey: renders an id as its decimal digits. This matches how JavaScript
  prints non-negative integers below 10^21, which covers every id the code creates.
- `password` is optional in types.ts. It is modelled as a plain string, because
  every user the code creates has one.
- Reports (`Report` and `ReportStatus` in types.ts, ReportModal.tsx): the code
  keeps no report store and has no resolve logic.
- EditUserModal.tsx, EditAdminModal.tsx, EditPostModal.tsx,
  LawyerVerificationModal.tsx, LawyerProfileModal.tsx, LawyerDashboard.tsx,
  Header.tsx, Disclaimer.tsx, DashboardLayout.tsx and ThemeToggle.tsx are not
  part of this model. They are form plumbing, wrappers around the handlers
  above, or display only.
- Mismatches between the props AdminDashboard declares and what App.tsx passes
  are not reconciled. Each function is modelled as written.
