/** Saving the result of a played task: a history row is added and its id appended to the
    user's list. The row's id (`Guid.NewGuid`) and the time are parameters. */
module HistoryManager {
  import opened Wrappers
  import opened Database

  /** The row saved for a result; missing selected variants are stored as no answers. */
  function NewHistory(id: string, sessionId: nat, taskId: int, score: int, selectedVariants: Option<seq<int>>,
                      now: int): (h: TaskHistory)
    ensures h.id == id && h.sessionId == sessionId && h.taskId == taskId && h.score == score && h.timePlayed == now
    ensures h.answers == if selectedVariants.Some? then selectedVariants.value else []
  {
    TaskHistory(id, sessionId, taskId, selectedVariants.GetOr([]), score, now)
  }

  class HistoryManager {
    const db: Database

    constructor(db: Database)
      ensures this.db == db
    {
      this.db := db;
    }

    /** `SaveTaskResult`: nothing for an unknown email; otherwise exactly one row is added and its
        id goes to the end of the user's `HistoryIds`. */
    method SaveTaskResult(email: string, sessionId: nat, taskId: int, score: int, selectedVariants: Option<seq<int>>,
                          id: string, now: int)
      requires db.Valid() && id !in db.histories
      modifies db`histories, db`users
      ensures db.Valid()
      ensures email !in old(db.users) ==> db.histories == old(db.histories) && db.users == old(db.users)
      ensures email in old(db.users) ==>
        db.histories == old(db.histories)[id := NewHistory(id, sessionId, taskId, score, selectedVariants, now)] &&
        db.users == old(db.users)[email := old(db.users)[email].(historyIds := old(db.users)[email].historyIds + [id])]
    {
      if email !in db.users {
        return;
      }
      var h := NewHistory(id, sessionId, taskId, score, selectedVariants, now);
      db.histories := db.histories[id := h];
      var u := db.users[email];
      db.users := db.users[email := u.(historyIds := u.historyIds + [id])];
    }
  }

  /** After a save, the user's history is what it was plus the new row; users who do not list the
      new id keep theirs. */
  lemma SaveExtendsHistory(users: map<string, User>, histories: map<string, TaskHistory>, email: string,
                           h: TaskHistory, other: string)
    requires email in users && h.id !in histories
    ensures var users' := users[email := users[email].(historyIds := users[email].historyIds + [h.id])];
      HistoryOf(users', histories[h.id := h], email) == HistoryOf(users, histories, email) + {h}
    ensures other != email && other in users && h.id !in users[other].historyIds ==>
      var users' := users[email := users[email].(historyIds := users[email].historyIds + [h.id])];
      HistoryOf(users', histories[h.id := h], other) == HistoryOf(users, histories, other)
  {
    var users' := users[email := users[email].(historyIds := users[email].historyIds + [h.id])];
    var histories' := histories[h.id := h];
    var before := HistoryOf(users, histories, email);
    var after := HistoryOf(users', histories', email);
    forall x | x in after
      ensures x in before + {h}
    {
      var id :| id in histories' && id in users'[email].historyIds && histories'[id] == x;
      if id != h.id {
        assert id in users[email].historyIds;
      }
    }
    forall x | x in before + {h}
      ensures x in after
    {
      if x in before {
        var id :| id in histories && id in users[email].historyIds && histories[id] == x;
        assert id in users'[email].historyIds && histories'[id] == x;
      } else {
        assert h.id in users'[email].historyIds;
      }
    }
    if other != email && other in users && h.id !in users[other].historyIds {
      var b2 := HistoryOf(users, histories, other);
      var a2 := HistoryOf(users', histories', other);
      forall x | x in a2
        ensures x in b2
      {
        var id :| id in histories' && id in users'[other].historyIds && histories'[id] == x;
      }
    }
  }
}
