/** The server's user store operations: registration with its uniqueness checks and the
    settings and sessions rows it creates, deletion with its cascade, and the per-user updates.
    BCrypt's hash is a parameter (`hash`), as are the `Guid.NewGuid` ids and the clock. The
    leaderboards are in `Leaderboards`. */
module UserHandler {
  import opened Wrappers
  import opened Database
  import opened ExceptionMiddleware

  const EmailExistsMessage: string := "A user with this email already exists."
  const NameExistsMessage: string := "A user with this username already exists."
  const UserNotFoundMessage: string := "User not found"
  const DefaultTheme: string := "default_theme"
  const DefaultFont: string := "default_font"

  /** What registration reads of the submitted user. */
  datatype Registration = Registration(name: string, email: string, password: string)

  /** Some stored user has this name. */
  predicate NameTaken(users: map<string, User>, name: string) {
    exists e :: e in users && users[e].name == name
  }

  /** The settings row of a new user: the first stored theme and font, or the defaults. */
  function NewSettings(id: string, themes: seq<string>, fonts: seq<string>): (s: UserSettings)
    ensures s.id == id
    ensures s.theme == (if |themes| > 0 then themes[0] else DefaultTheme)
    ensures s.font == (if |fonts| > 0 then fonts[0] else DefaultFont)
  {
    UserSettings(id, if |themes| > 0 then themes[0] else DefaultTheme, if |fonts| > 0 then fonts[0] else DefaultFont)
  }

  /** The stored user: the hashed password, no picture, no histories, and the new rows' ids. */
  function Registered(r: Registration, hash: string, settingsId: string, sessionsId: string, now: int): (u: User)
    ensures u.name == r.name && u.email == r.email && u.password == hash && u.profilePic.None?
    ensures u.historyIds == [] && u.settingsId == settingsId && u.sessionsId == sessionsId && u.joinedAt == now
  {
    User(r.name, r.email, hash, None, [], settingsId, sessionsId, now)
  }

  /** `GetUserProfilePicByEmailAsync`: none for an unknown user, an empty picture for a user
      without one. */
  function ProfilePicOf(users: map<string, User>, email: string): (r: Option<Bytes>)
    ensures r.None? <==> email !in users
    ensures r.Some? && users[email].profilePic.Some? ==> r.value == users[email].profilePic.value
    ensures r.Some? && users[email].profilePic.None? ==> r.value == []
  {
    if email !in users then None else Some(users[email].profilePic.GetOr([]))
  }

  /** The exception a missing user raises is a general one, which the middleware reports as a
      server error rather than as 404. */
  lemma UserNotFoundIsServerError()
    ensures StatusFor(Exception(GeneralException, UserNotFoundMessage)) == StatusInternalServerError
  {
  }

  class UserHandler {
    const db: Database

    constructor(db: Database)
      ensures this.db == db
    {
      this.db := db;
    }

    /** `RegisterUserAsync`. The email check comes first, then the name check; either failure
        changes nothing. Otherwise the settings and sessions rows are saved, and then the user;
        when that last save fails (`saveFails`) the result is `false` and the two rows stay. */
    method RegisterUser(r: Registration, hash: string, settingsId: string, sessionsId: string, now: int,
                        saveFails: bool) returns (result: Result<bool, Exception>)
      requires db.Valid() && settingsId !in db.userSettings && sessionsId !in db.userSessions
      modifies db`users, db`userSettings, db`userSessions
      ensures db.Valid()
      ensures r.email in old(db.users) ==>
        result == Err(Exception(UserAlreadyExistsException, EmailExistsMessage)) && unchanged(db)
      ensures r.email !in old(db.users) && NameTaken(old(db.users), r.name) ==>
        result == Err(Exception(UserAlreadyExistsException, NameExistsMessage)) && unchanged(db)
      ensures r.email !in old(db.users) && !NameTaken(old(db.users), r.name) ==> (
        result == Ok(!saveFails) &&
        db.userSettings == old(db.userSettings)[settingsId := NewSettings(settingsId, db.themes, db.fonts)] &&
        db.userSessions == old(db.userSessions)[sessionsId := UserSessions(sessionsId, [])] &&
        db.users == if saveFails then old(db.users)
                    else old(db.users)[r.email := Registered(r, hash, settingsId, sessionsId, now)])
    {
      if r.email in db.users {
        return Err(Exception(UserAlreadyExistsException, EmailExistsMessage));
      }
      if exists e :: e in db.users && db.users[e].name == r.name {
        return Err(Exception(UserAlreadyExistsException, NameExistsMessage));
      }
      CreateSettings(settingsId);
      CreateSessions(sessionsId);
      if saveFails {
        return Ok(false);
      }
      db.users := db.users[r.email := Registered(r, hash, settingsId, sessionsId, now)];
      result := Ok(true);
    }

    /** `createSettingsId`: a settings row with the first stored theme and font, saved. */
    method CreateSettings(id: string)
      requires db.Valid() && id !in db.userSettings
      modifies db`userSettings
      ensures db.Valid()
      ensures db.userSettings == old(db.userSettings)[id := NewSettings(id, db.themes, db.fonts)]
    {
      db.userSettings := db.userSettings[id := NewSettings(id, db.themes, db.fonts)];
    }

    /** `createSessionsId`: an empty sessions container, saved. */
    method CreateSessions(id: string)
      requires db.Valid() && id !in db.userSessions
      modifies db`userSessions
      ensures db.Valid()
      ensures db.userSessions == old(db.userSessions)[id := UserSessions(id, [])]
    {
      db.userSessions := db.userSessions[id := UserSessions(id, [])];
    }

    /** `ChangeUserPasswordAsync`: the stored hash becomes `hash`; a missing user throws. */
    method ChangeUserPassword(email: string, hash: string) returns (thrown: Option<Exception>)
      requires db.Valid()
      modifies db`users
      ensures db.Valid()
      ensures email !in old(db.users) ==>
        thrown == Some(Exception(GeneralException, UserNotFoundMessage)) && db.users == old(db.users)
      ensures email in old(db.users) ==>
        thrown.None? && db.users == old(db.users)[email := old(db.users)[email].(password := hash)]
    {
      if email !in db.users {
        return Some(Exception(GeneralException, UserNotFoundMessage));
      }
      db.users := db.users[email := db.users[email].(password := hash)];
      thrown := None;
    }

    /** `ChangeUserNameAsync`: the name becomes `name`, without checking that it is free; a
        missing user throws. */
    method ChangeUserName(email: string, name: string) returns (thrown: Option<Exception>)
      requires db.Valid()
      modifies db`users
      ensures db.Valid()
      ensures email !in old(db.users) ==>
        thrown == Some(Exception(GeneralException, UserNotFoundMessage)) && db.users == old(db.users)
      ensures email in old(db.users) ==>
        thrown.None? && db.users == old(db.users)[email := old(db.users)[email].(name := name)]
    {
      if email !in db.users {
        return Some(Exception(GeneralException, UserNotFoundMessage));
      }
      db.users := db.users[email := db.users[email].(name := name)];
      thrown := None;
    }

    /** `UpdateProfilePictureAsync`: the picture is replaced; none for an unknown user. */
    method UpdateProfilePicture(email: string, pic: Bytes) returns (updated: Option<User>)
      requires db.Valid()
      modifies db`users
      ensures db.Valid()
      ensures email !in old(db.users) ==> updated.None? && db.users == old(db.users)
      ensures email in old(db.users) ==>
        db.users == old(db.users)[email := old(db.users)[email].(profilePic := Some(pic))] &&
        updated == Some(db.users[email])
    {
      if email !in db.users {
        return None;
      }
      db.users := db.users[email := db.users[email].(profilePic := Some(pic))];
      updated := Some(db.users[email]);
    }

    /** `DeleteUserByEmailAsync`: a missing user throws and nothing changes. Otherwise the user's
        sessions container goes with every single session it lists, then the settings row, then
        every history the user lists, then the user. */
    method DeleteUserByEmail(email: string) returns (thrown: Option<Exception>)
      requires db.Valid()
      modifies db`users, db`userSessions, db`singleSessions, db`userSettings, db`histories
      ensures db.Valid()
      ensures email !in old(db.users) ==>
        thrown == Some(Exception(GeneralException, UserNotFoundMessage)) && unchanged(db)
      ensures email in old(db.users) ==> (
        var u := old(db.users)[email];
        thrown.None? && db.users == old(db.users) - {email} &&
        db.userSessions == old(db.userSessions) - {u.sessionsId} &&
        db.singleSessions == (if u.sessionsId in old(db.userSessions)
                              then old(db.singleSessions) - Elements(old(db.userSessions)[u.sessionsId].sessionIds)
                              else old(db.singleSessions)) &&
        db.userSettings == old(db.userSettings) - {u.settingsId} &&
        db.histories == old(db.histories) - Elements(u.historyIds))
    {
      if email !in db.users {
        return Some(Exception(GeneralException, UserNotFoundMessage));
      }
      var u := db.users[email];
      RemoveSessionsOf(u.sessionsId);
      RemoveSettings(u.settingsId);
      RemoveHistories(u.historyIds);
      db.users := db.users - {email};
      thrown := None;
    }

    /** The sessions part of the cascade: the container, when it exists, with every single
        session it lists. */
    method RemoveSessionsOf(sessionsId: string)
      requires db.Valid()
      modifies db`userSessions, db`singleSessions
      ensures db.Valid()
      ensures db.userSessions == old(db.userSessions) - {sessionsId}
      ensures db.singleSessions == (if sessionsId in old(db.userSessions)
                                    then old(db.singleSessions) - Elements(old(db.userSessions)[sessionsId].sessionIds)
                                    else old(db.singleSessions))
    {
      if sessionsId in db.userSessions {
        RemoveSingleSessions(db.userSessions[sessionsId].sessionIds);
        db.userSessions := db.userSessions - {sessionsId};
      }
    }

    /** The settings row, when it exists. */
    method RemoveSettings(id: string)
      requires db.Valid()
      modifies db`userSettings
      ensures db.Valid() && db.userSettings == old(db.userSettings) - {id}
    {
      if id in db.userSettings {
        db.userSettings := db.userSettings - {id};
      }
    }

    /** The cascade over a container's single sessions, each removed when it exists. */
    method RemoveSingleSessions(ids: seq<string>)
      requires db.Valid()
      modifies db`singleSessions
      ensures db.Valid()
      ensures db.singleSessions == old(db.singleSessions) - Elements(ids)
    {
      var k := 0;
      while k < |ids|
        invariant 0 <= k <= |ids| && db.Valid()
        invariant db.singleSessions == old(db.singleSessions) - Elements(ids[..k])
      {
        assert Elements(ids[..k + 1]) == Elements(ids[..k]) + {ids[k]};
        if ids[k] in db.singleSessions {
          db.singleSessions := db.singleSessions - {ids[k]};
        }
        k := k + 1;
      }
      assert ids[..k] == ids;
    }

    /** The cascade over the user's histories, each removed when it exists. */
    method RemoveHistories(ids: seq<string>)
      requires db.Valid()
      modifies db`histories
      ensures db.Valid()
      ensures db.histories == old(db.histories) - Elements(ids)
    {
      var k := 0;
      while k < |ids|
        invariant 0 <= k <= |ids| && db.Valid()
        invariant db.histories == old(db.histories) - Elements(ids[..k])
      {
        assert Elements(ids[..k + 1]) == Elements(ids[..k]) + {ids[k]};
        if ids[k] in db.histories {
          db.histories := db.histories - {ids[k]};
        }
        k := k + 1;
      }
      assert ids[..k] == ids;
    }
  }

  /** A new user's history is empty, and after deletion the history lookup finds nothing. */
  lemma RegisteredHistoryEmpty(users: map<string, User>, histories: map<string, TaskHistory>, u: User)
    requires u.historyIds == []
    ensures HistoryOf(users[u.email := u], histories, u.email) == {}
    ensures HistoryOf(users - {u.email}, histories, u.email) == {}
  {
  }

  /** Deleting a user leaves another user's history alone when they share no history id. */
  lemma DeleteSparesOthers(users: map<string, User>, histories: map<string, TaskHistory>, email: string, other: string)
    requires email in users && other in users && other != email
    requires forall id :: id in users[other].historyIds ==> id !in users[email].historyIds
    ensures HistoryOf(users - {email}, histories - Elements(users[email].historyIds), other) ==
      HistoryOf(users, histories, other)
  {
    var h' := histories - Elements(users[email].historyIds);
    var a := HistoryOf(users - {email}, h', other);
    var b := HistoryOf(users, histories, other);
    forall x | x in b
      ensures x in a
    {
      var id :| id in histories && id in users[other].historyIds && histories[id] == x;
      assert id in h';
    }
    forall x | x in a
      ensures x in b
    {
      var id :| id in h' && id in (users - {email})[other].historyIds && h'[id] == x;
    }
  }
}
