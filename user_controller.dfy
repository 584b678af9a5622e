/** The user endpoints: each is a chain of guard clauses ending in a reply and, where the
    request changes something, in one call into `UserHandler.UserHandler` (`Call`). The token's
    email claim is `email` (`None` when absent), the request fields are `Option`s (`None` for
    null), the user table and the history table are the handler's, BCrypt's check is the
    parameter `verify`, and the default picture file's bytes are the parameter
    `defaultPicture`. */
module UserController {
  import opened Wrappers
  import opened Database
  import opened Replies
  import opened Sorting
  import opened Leaderboards

  const UserNotFound: string := "User not found."
  const InvalidPicture: string := "Invalid profile picture."
  const PictureUpdated: string := "Profile picture updated successfully."
  const InvalidPassword: string := "Invalid password."
  const EmptyNewPassword: string := "New password cannot be null or empty."
  const PasswordChanged: string := "Password changed."
  const EmptyNewName: string := "New name cannot be null or empty."
  const NameChanged: string := "Name changed."
  const UserDeleted: string := "User deleted."
  const InvalidPage: string := "Invalid page number."

  /** Leaderboard entries per page. */
  const PageSize: int := 10

  datatype UserDto = UserDto(name: string, email: string)

  datatype UserDetailsDto = UserDetailsDto(email: string, name: string, joinedAt: int)

  /** A file reply: its bytes, content type and download name. */
  datatype PictureFile = PictureFile(contents: Bytes, contentType: string, fileName: string)

  /** The handler call an accepted request makes. */
  datatype Call =
    | UpdatePicture(email: string, picture: Bytes)
    | ChangePassword(email: string, newPassword: string)
    | ChangeName(email: string, newName: string)
    | Delete(email: string)

  /** A state-changing endpoint's reply with the call it makes, if any. */
  datatype Outcome = Outcome(reply: Reply<string>, call: Option<Call>)

  /** `GetAllUsers`: every user projected to name and email, same count and order. */
  function GetAllUsers(users: seq<User>): (r: Reply<seq<UserDto>>)
    ensures r.Ok? && |r.value| == |users|
    ensures forall i :: 0 <= i < |users| ==> r.value[i] == UserDto(users[i].name, users[i].email)
  {
    Reply.Ok(seq(|users|, i requires 0 <= i < |users| => UserDto(users[i].name, users[i].email)))
  }

  /** `GetUser`: a missing claim is refused; otherwise the user, or 404. */
  function GetUser(email: Option<string>, users: map<string, User>): (r: Reply<UserDto>)
    ensures r == Reply.Unauthorized(InvalidToken) <==> NullOrEmpty(email)
    ensures r.Ok? <==> !NullOrEmpty(email) && email.value in users
    ensures r.Ok? ==> r.value == UserDto(users[email.value].name, users[email.value].email)
    ensures r.NotFound? ==> r.message == UserNotFound
    ensures r.BadRequest? == false
  {
    if NullOrEmpty(email) then Reply.Unauthorized(InvalidToken)
    else if email.value in users then Reply.Ok(UserDto(users[email.value].name, users[email.value].email))
    else Reply.NotFound(UserNotFound)
  }

  /** `GetUserDetails`: the user's email, name and join time, or 404. No token is needed. */
  function GetUserDetails(email: string, users: map<string, User>): (r: Reply<UserDetailsDto>)
    ensures r.Ok? <==> email in users
    ensures r.Ok? ==> r.value == UserDetailsDto(users[email].email, users[email].name, users[email].joinedAt)
    ensures !r.Ok? ==> r == Reply.NotFound(UserNotFound)
  {
    if email in users then
      var u := users[email];
      Reply.Ok(UserDetailsDto(u.email, u.name, u.joinedAt))
    else Reply.NotFound(UserNotFound)
  }

  /** `GetProfilePicture`: the stored picture as "profile.jpg", or the default picture when
      none or an empty one is stored. */
  function GetProfilePicture(email: Option<string>, users: map<string, User>, defaultPicture: Bytes)
    : (r: Reply<PictureFile>)
    ensures r == Reply.Unauthorized(InvalidToken) <==> NullOrEmpty(email)
    ensures r.Ok? <==> !NullOrEmpty(email) && email.value in users
    ensures r.Ok? ==> r.value.contentType == "image/jpeg"
    ensures r.Ok? ==> (
      var pic := users[email.value].profilePic;
      if pic.None? || pic.value == [] then r.value.contents == defaultPicture && r.value.fileName == "defaultPicture.jpg"
      else r.value.contents == pic.value && r.value.fileName == "profile.jpg")
    ensures r.NotFound? ==> r.message == UserNotFound
  {
    if NullOrEmpty(email) then Reply.Unauthorized(InvalidToken)
    else if email.value !in users then Reply.NotFound(UserNotFound)
    else
      var pic := users[email.value].profilePic;
      if pic.None? || |pic.value| == 0 then Reply.Ok(PictureFile(defaultPicture, "image/jpeg", "defaultPicture.jpg"))
      else Reply.Ok(PictureFile(pic.value, "image/jpeg", "profile.jpg"))
  }

  /** `UpdateProfilePicture`: token, then user, then a null or empty file; only a request
      passing all three replaces the picture. */
  function UpdateProfilePicture(email: Option<string>, users: map<string, User>, file: Option<Bytes>)
    : (r: Outcome)
    ensures NullOrEmpty(email) ==> r == Outcome(Reply.Unauthorized(InvalidToken), None)
    ensures !NullOrEmpty(email) && email.value !in users ==> r == Outcome(Reply.NotFound(UserNotFound), None)
    ensures !NullOrEmpty(email) && email.value in users && (file.None? || file.value == []) ==>
      r == Outcome(Reply.BadRequest(InvalidPicture), None)
    ensures r.call.Some? <==> r.reply.Ok?
    ensures r.reply.Ok? <==> !NullOrEmpty(email) && email.value in users && file.Some? && file.value != []
    ensures r.reply.Ok? ==> r.reply.value == PictureUpdated && r.call == Some(UpdatePicture(email.value, file.value))
  {
    if NullOrEmpty(email) then Outcome(Reply.Unauthorized(InvalidToken), None)
    else if email.value !in users then Outcome(Reply.NotFound(UserNotFound), None)
    else if file.None? || |file.value| == 0 then Outcome(Reply.BadRequest(InvalidPicture), None)
    else Outcome(Reply.Ok(PictureUpdated), Some(UpdatePicture(email.value, file.value)))
  }

  /** `GetUserHistory`: the user's task histories, after the token and user checks. */
  function GetUserHistory(email: Option<string>, users: map<string, User>, histories: map<string, TaskHistory>)
    : (r: Reply<set<TaskHistory>>)
    ensures r == Reply.Unauthorized(InvalidToken) <==> NullOrEmpty(email)
    ensures r.Ok? <==> !NullOrEmpty(email) && email.value in users
    ensures r.Ok? ==> r.value == HistoryOf(users, histories, email.value)
    ensures r.NotFound? ==> r.message == UserNotFound
  {
    if NullOrEmpty(email) then Reply.Unauthorized(InvalidToken)
    else if email.value in users then Reply.Ok(HistoryOf(users, histories, email.value))
    else Reply.NotFound(UserNotFound)
  }

  /** `ChangeUserPassword`: token, then user, then the old password (empty or not matching the
      stored hash), then the new password; the password changes only once all four pass. */
  function ChangeUserPassword(email: Option<string>, users: map<string, User>, oldPassword: Option<string>,
                              newPassword: Option<string>, verify: (string, string) -> bool): (r: Outcome)
    ensures NullOrEmpty(email) ==> r == Outcome(Reply.Unauthorized(InvalidToken), None)
    ensures !NullOrEmpty(email) && email.value !in users ==> r == Outcome(Reply.NotFound(UserNotFound), None)
    ensures (!NullOrEmpty(email) && email.value in users &&
             (NullOrEmpty(oldPassword) || !verify(oldPassword.value, users[email.value].password))) ==>
      r == Outcome(Reply.Unauthorized(InvalidPassword), None)
    ensures r.call.Some? <==> r.reply.Ok?
    ensures r.reply.Ok? <==>
      !NullOrEmpty(email) && email.value in users && !NullOrEmpty(oldPassword) &&
      verify(oldPassword.value, users[email.value].password) && !NullOrEmpty(newPassword)
    ensures r.reply.BadRequest? ==> r.reply.message == EmptyNewPassword && NullOrEmpty(newPassword)
    ensures r.reply.Ok? ==>
      r.reply.value == PasswordChanged && r.call == Some(ChangePassword(email.value, newPassword.value))
  {
    if NullOrEmpty(email) then Outcome(Reply.Unauthorized(InvalidToken), None)
    else if email.value !in users then Outcome(Reply.NotFound(UserNotFound), None)
    else if NullOrEmpty(oldPassword) || !verify(oldPassword.value, users[email.value].password) then
      Outcome(Reply.Unauthorized(InvalidPassword), None)
    else if NullOrEmpty(newPassword) then Outcome(Reply.BadRequest(EmptyNewPassword), None)
    else Outcome(Reply.Ok(PasswordChanged), Some(ChangePassword(email.value, newPassword.value)))
  }

  /** A wrong old password is refused whatever the new password is. */
  lemma WrongPasswordWins(email: Option<string>, users: map<string, User>, oldPassword: Option<string>,
                          a: Option<string>, b: Option<string>, verify: (string, string) -> bool)
    requires !NullOrEmpty(email) && email.value in users
    requires NullOrEmpty(oldPassword) || !verify(oldPassword.value, users[email.value].password)
    ensures ChangeUserPassword(email, users, oldPassword, a, verify) == ChangeUserPassword(email, users, oldPassword, b, verify)
    ensures ChangeUserPassword(email, users, oldPassword, a, verify).reply == Reply.Unauthorized(InvalidPassword)
  {
  }

  /** `ChangeUserName`: token, then an empty name, both before any lookup; the handler throws
      for an unknown user. */
  function ChangeUserName(email: Option<string>, newName: Option<string>): (r: Outcome)
    ensures NullOrEmpty(email) ==> r == Outcome(Reply.Unauthorized(InvalidToken), None)
    ensures !NullOrEmpty(email) && NullOrEmpty(newName) ==> r == Outcome(Reply.BadRequest(EmptyNewName), None)
    ensures r.call.Some? <==> r.reply.Ok?
    ensures r.reply.Ok? <==> !NullOrEmpty(email) && !NullOrEmpty(newName)
    ensures r.reply.Ok? ==> r.reply.value == NameChanged && r.call == Some(ChangeName(email.value, newName.value))
  {
    if NullOrEmpty(email) then Outcome(Reply.Unauthorized(InvalidToken), None)
    else if NullOrEmpty(newName) then Outcome(Reply.BadRequest(EmptyNewName), None)
    else Outcome(Reply.Ok(NameChanged), Some(ChangeName(email.value, newName.value)))
  }

  /** `DeleteUser`: a missing claim is refused; otherwise the user is deleted (the handler throws
      for an unknown user, and the exception takes the place of the reply). */
  function DeleteUser(email: Option<string>): (r: Outcome)
    ensures r.call.Some? <==> r.reply.Ok?
    ensures NullOrEmpty(email) <==> r == Outcome(Reply.Unauthorized(InvalidToken), None)
    ensures !NullOrEmpty(email) ==> r == Outcome(Reply.Ok(UserDeleted), Some(Delete(email.value)))
  {
    if NullOrEmpty(email) then Outcome(Reply.Unauthorized(InvalidToken), None)
    else Outcome(Reply.Ok(UserDeleted), Some(Delete(email.value)))
  }

  const Int32Min: int := -0x8000_0000
  const Int32Max: int := 0x7fff_ffff
  const TwoTo32: int := 0x1_0000_0000

  predicate IsInt32(x: int) {
    Int32Min <= x <= Int32Max
  }

  /** C#'s unchecked `int` arithmetic: the 32-bit value congruent to `x` modulo 2^32. */
  function Wrap32(x: int): (r: int)
    ensures IsInt32(r) && (x - r) % TwoTo32 == 0
    ensures IsInt32(x) ==> r == x
  {
    (x - Int32Min) % TwoTo32 + Int32Min
  }

  /** The leaderboards' skip as written: `(page - 1) * pageSize` in 32-bit `int`, which wraps
      once `page` exceeds 214748365. */
  function SkipAsWritten(page: int): (skip: int)
    requires IsInt32(page) && page >= 1
    ensures IsInt32(skip) && (skip - (page - 1) * PageSize) % TwoTo32 == 0
  {
    Wrap32((page - 1) * PageSize)
  }

  /** A leaderboard endpoint as written: page < 1 is refused, otherwise `Skip(skip).Take(10)`
      of the ranking with the wrapped skip. */
  function RankingPageAsWritten<T>(page: int, ranking: seq<T>): (r: Reply<seq<T>>)
    requires IsInt32(page)
    ensures r.Ok? <==> page >= 1
    ensures !r.Ok? ==> r == Reply.BadRequest(InvalidPage)
  {
    if page < 1 then Reply.BadRequest(InvalidPage) else Reply.Ok(Page(ranking, SkipAsWritten(page), PageSize))
  }

  /** Page 214748366 wraps its skip to -2147483646, which skips nothing: the endpoint returns
      the first page again instead of the entries from 2147483650 on. */
  lemma OverflowedPageRepeatsFirst<T>(ranking: seq<T>)
    ensures SkipAsWritten(214748366) == -2147483646
    ensures RankingPageAsWritten(214748366, ranking) == RankingPageAsWritten(1, ranking)
  {
  }

  /** A leaderboard endpoint with the skip computed without overflow. */
  function RankingPage<T>(page: int, ranking: seq<T>): (r: Reply<seq<T>>)
    ensures r.Ok? <==> page >= 1
    ensures !r.Ok? ==> r == Reply.BadRequest(InvalidPage)
  {
    if page < 1 then Reply.BadRequest(InvalidPage) else Reply.Ok(Page(ranking, (page - 1) * PageSize, PageSize))
  }

  /** Page `page` holds the ranking's entries from (page - 1) * 10 on, at most ten of them, ten
      when the ranking reaches that far and none past its end; so consecutive pages follow each
      other without overlap. */
  lemma RankingPageSlice<T>(page: int, ranking: seq<T>)
    requires page >= 1
    ensures var r := RankingPage(page, ranking).value;
      var skip := (page - 1) * PageSize;
      |r| <= PageSize && (forall i :: 0 <= i < |r| ==> skip + i < |ranking| && r[i] == ranking[skip + i]) &&
      (skip + PageSize <= |ranking| ==> |r| == PageSize) && (skip >= |ranking| ==> r == [])
  {
    PageOfRanking(ranking, (page - 1) * PageSize, PageSize);
  }

  /** With the skip computed without overflow, page 214748366 of a ranking shorter than
      2147483651 entries is empty; as written it repeats page 1, which differs whenever the
      ranking has an entry. */
  lemma OverflowedPageCorrected<T>(ranking: seq<T>)
    requires |ranking| <= 2147483650
    ensures RankingPage(214748366, ranking) == Reply.Ok([])
    ensures |ranking| > 0 ==> RankingPage(214748366, ranking) != RankingPageAsWritten(214748366, ranking)
  {
    RankingPageSlice(214748366, ranking);
    OverflowedPageRepeatsFirst(ranking);
    if |ranking| > 0 {
      RankingPageSlice(1, ranking);
    }
  }

  /** Below the first page whose skip wraps, the endpoint as written is the corrected one. */
  lemma AsWrittenAgreesBelowWrap<T>(page: int, ranking: seq<T>)
    requires IsInt32(page) && page <= 214748365
    ensures RankingPageAsWritten(page, ranking) == RankingPage(page, ranking)
  {
    if page >= 1 {
      assert IsInt32((page - 1) * PageSize);
    }
  }

  /** `GetTotalScoreLeaderBoard(page)`: page < 1 is refused, otherwise `GetTotalScoresAsync` with
      the skip as written; that is the generic endpoint over the total-score ranking. */
  function TotalScoreLeaderboard(page: int, users: seq<User>, histories: map<string, TaskHistory>)
    : (r: Reply<seq<UserScore>>)
    requires IsInt32(page)
    ensures r == RankingPageAsWritten(page, TotalRanking(Joined(users, histories)))
  {
    if page < 1 then Reply.BadRequest(InvalidPage)
    else Reply.Ok(TotalScores(users, histories, SkipAsWritten(page), PageSize))
  }

  /** `GetHighScoreLeaderBoard(page)`: the same over the high-score ranking. */
  function HighScoreLeaderboard(page: int, users: seq<User>, histories: map<string, TaskHistory>)
    : (r: Reply<seq<UserScore>>)
    requires IsInt32(page)
    ensures r == RankingPageAsWritten(page, HighRanking(Joined(users, histories)))
  {
    if page < 1 then Reply.BadRequest(InvalidPage)
    else Reply.Ok(HighScores(users, histories, SkipAsWritten(page), PageSize))
  }

  /** Whatever the skip, even a negative one, a page of a best-first ranking is itself best
      first, holds ranking entries only, and at most ten of them. */
  lemma SortedPage(skip: int, ranking: seq<UserScore>)
    requires forall i, j :: 0 <= i < j < |ranking| ==> ranking[i].score >= ranking[j].score
    ensures var r := Page(ranking, skip, PageSize);
      |r| <= PageSize && (forall i :: 0 <= i < |r| ==> r[i] in ranking) &&
      (forall i, j :: 0 <= i < j < |r| ==> r[i].score >= r[j].score)
  {
    var from: nat := if skip <= 0 then 0 else if skip > |ranking| then |ranking| else skip;
    assert Page(ranking, skip, PageSize) == Page(ranking, from, PageSize);
    PageOfRanking(ranking, from, PageSize);
    var r := Page(ranking, skip, PageSize);
    forall i, j | 0 <= i < j < |r|
      ensures r[i].score >= r[j].score
    {
      assert r[i] == ranking[from + i] && r[j] == ranking[from + j];
    }
  }

  /** With the skip computed without overflow, a page of a best-first ranking is best first. */
  lemma SortedRankingPage(page: int, ranking: seq<UserScore>)
    requires page >= 1
    requires forall i, j :: 0 <= i < j < |ranking| ==> ranking[i].score >= ranking[j].score
    ensures var r := RankingPage(page, ranking);
      r.Ok? && |r.value| <= PageSize && (forall i :: 0 <= i < |r.value| ==> r.value[i] in ranking) &&
      (forall i, j :: 0 <= i < j < |r.value| ==> r.value[i].score >= r.value[j].score)
  {
    SortedPage((page - 1) * PageSize, ranking);
  }

  /** Every accepted total-score page, a wrapped one included, lists users' totals, best first. */
  lemma TotalScorePageRanked(page: int, users: seq<User>, histories: map<string, TaskHistory>)
    requires IsInt32(page) && page >= 1
    ensures var r := TotalScoreLeaderboard(page, users, histories);
      r.Ok? && |r.value| <= PageSize &&
      (forall i :: 0 <= i < |r.value| ==> r.value[i] in Totals(Joined(users, histories))) &&
      (forall i, j :: 0 <= i < j < |r.value| ==> r.value[i].score >= r.value[j].score)
  {
    var ranking := TotalRanking(Joined(users, histories));
    TotalRankingSorted(Joined(users, histories));
    SortedPage(SkipAsWritten(page), ranking);
    SameMembers(ranking, Totals(Joined(users, histories)));
  }

  /** Every accepted high-score page, a wrapped one included, lists per-game maxima, best first. */
  lemma HighScorePageRanked(page: int, users: seq<User>, histories: map<string, TaskHistory>)
    requires IsInt32(page) && page >= 1
    ensures var r := HighScoreLeaderboard(page, users, histories);
      r.Ok? && |r.value| <= PageSize &&
      (forall i :: 0 <= i < |r.value| ==> r.value[i] in Highs(Joined(users, histories))) &&
      (forall i, j :: 0 <= i < j < |r.value| ==> r.value[i].score >= r.value[j].score)
  {
    var ranking := HighRanking(Joined(users, histories));
    HighRankingSorted(Joined(users, histories));
    SortedPage(SkipAsWritten(page), ranking);
    SameMembers(ranking, Highs(Joined(users, histories)));
  }
}
