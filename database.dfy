/** The server's database tables, as keyed in-memory maps: users by email (their primary key),
    settings, session containers, single sessions and task histories by string id, and global
    chats by index. Every row is stored under its own key. */
module Database {
  import opened Wrappers

  type Bytes = seq<bv8>

  datatype User = User(
    name: string,
    email: string,
    password: string,
    profilePic: Option<Bytes>,
    historyIds: seq<string>,
    settingsId: string,
    sessionsId: string,
    joinedAt: int)

  datatype UserSettings = UserSettings(id: string, theme: string, font: string)

  /** A user's sessions container: the ids of the single sessions saved for them. */
  datatype UserSessions = UserSessions(id: string, sessionIds: seq<string>)

  datatype SingleSession = SingleSession(id: string, timeStarted: int, timeEnded: int)

  /** One played task; `sessionId` is a `uint`. */
  datatype TaskHistory = TaskHistory(id: string, sessionId: nat, taskId: int, answers: seq<int>, score: int,
                                     timePlayed: int)

  datatype GlobalChat = GlobalChat(chatIndex: int, chatText: string, author: string, writtenAt: int)

  class Database {
    var users: map<string, User>
    var userSettings: map<string, UserSettings>
    /** The `settings.theme` and `settings.font` tables, in the order the database returns them. */
    var themes: seq<string>
    var fonts: seq<string>
    var userSessions: map<string, UserSessions>
    var singleSessions: map<string, SingleSession>
    var histories: map<string, TaskHistory>
    var chats: map<int, GlobalChat>

    /** Every row is stored under its own key. */
    ghost predicate Valid()
      reads this
    {
      (forall e :: e in users ==> users[e].email == e) &&
      (forall id :: id in userSettings ==> userSettings[id].id == id) &&
      (forall id :: id in userSessions ==> userSessions[id].id == id) &&
      (forall id :: id in singleSessions ==> singleSessions[id].id == id) &&
      (forall id :: id in histories ==> histories[id].id == id) &&
      (forall i :: i in chats ==> chats[i].chatIndex == i)
    }

    constructor()
      ensures Valid()
      ensures users == map[] && userSettings == map[] && themes == [] && fonts == []
      ensures userSessions == map[] && singleSessions == map[] && histories == map[] && chats == map[]
    {
      users := map[];
      userSettings := map[];
      themes := [];
      fonts := [];
      userSessions := map[];
      singleSessions := map[];
      histories := map[];
      chats := map[];
    }
  }

  /** The elements of a list of ids. */
  function Elements(ids: seq<string>): (r: set<string>)
    ensures forall x :: x in r <==> x in ids
  {
    set x | x in ids
  }

  /** `GetTaskHistoryByEmail`: the histories whose id the user lists, none for an unknown user. */
  function HistoryOf(users: map<string, User>, histories: map<string, TaskHistory>, email: string): (r: set<TaskHistory>)
    ensures email !in users ==> r == {}
    ensures email in users ==> forall id :: id in histories && id in users[email].historyIds ==> histories[id] in r
    ensures forall h :: h in r ==> exists id :: id in histories && id in users[email].historyIds && histories[id] == h
  {
    if email !in users then {} else set id | id in histories && id in users[email].historyIds :: histories[id]
  }

  /** With every history stored under its own id, the histories of a user are exactly the stored
      ones whose id the user lists. */
  lemma HistoryOfExactly(users: map<string, User>, histories: map<string, TaskHistory>, email: string, h: TaskHistory)
    requires email in users && forall id :: id in histories ==> histories[id].id == id
    ensures h in HistoryOf(users, histories, email) <==>
      h.id in histories && histories[h.id] == h && h.id in users[email].historyIds
  {
  }
}
