/** The global chat endpoints: reading the newest hundred chats with their authors' pictures,
    and posting a chat under the next free index. The table is `Database.chats`, keyed by
    `ChatIndex`; the clock is the parameter `now`. */
module ChatController {
  import opened Wrappers
  import opened Database
  import opened Sorting
  import opened UserHandler
  import opened Replies

  /** How many chats `GetGlobalChats` returns at most. */
  const Window: nat := 100

  /** A chat as sent to the client, with its author's picture. */
  datatype Chat = Chat(chatText: string, author: string, writtenAt: int, profilePic: Bytes)

  /** The order of `OrderByDescending(ChatIndex)`: `a` may come before `b`. */
  predicate ChatAfter(a: GlobalChat, b: GlobalChat) {
    a.chatIndex >= b.chatIndex
  }

  lemma ChatAfterTotal()
    ensures TotalPreorder(ChatAfter)
  {
  }

  /** `rows` is the chat table as `ToListAsync` returns it: every stored chat once, in some
      order. */
  ghost predicate Lists(rows: seq<GlobalChat>, chats: map<int, GlobalChat>) {
    (forall c :: c in rows <==> c.chatIndex in chats && chats[c.chatIndex] == c) &&
    (forall i, j :: 0 <= i < j < |rows| ==> rows[i].chatIndex != rows[j].chatIndex)
  }

  /** `OrderByDescending(ChatIndex).Take(100)`. */
  function Newest(rows: seq<GlobalChat>): seq<GlobalChat> {
    var sorted := InsertionSort(rows, ChatAfter);
    if |sorted| <= Window then sorted else sorted[..Window]
  }

  /** The sorted listing is a permutation of `rows` with the highest index first. */
  lemma Descending(rows: seq<GlobalChat>)
    ensures var s := InsertionSort(rows, ChatAfter);
      multiset(s) == multiset(rows) && forall i, j :: 0 <= i < j < |s| ==> s[i].chatIndex >= s[j].chatIndex
  {
    ChatAfterTotal();
    InsertionSortSorted(rows, ChatAfter);
  }

  /** The window is the first min(100, n) chats of the sorted listing. */
  lemma NewestIsPrefix(rows: seq<GlobalChat>)
    ensures var s := InsertionSort(rows, ChatAfter);
      |Newest(rows)| == (if |rows| <= Window then |rows| else Window) &&
      forall i :: 0 <= i < |Newest(rows)| ==> Newest(rows)[i] == s[i]
  {
    var s := InsertionSort(rows, ChatAfter);
    assert |s| == |multiset(s)| == |rows|;
  }

  /** The window holds min(100, n) chats of `rows`, highest index first. */
  lemma NewestWindow(rows: seq<GlobalChat>)
    ensures var r := Newest(rows);
      |r| == (if |rows| <= Window then |rows| else Window) &&
      (forall i :: 0 <= i < |r| ==> r[i] in rows) &&
      (forall i, j :: 0 <= i < j < |r| ==> r[i].chatIndex >= r[j].chatIndex)
  {
    var s := InsertionSort(rows, ChatAfter);
    var r := Newest(rows);
    NewestIsPrefix(rows);
    Descending(rows);
    SameMembers(s, rows);
    forall i | 0 <= i < |r|
      ensures r[i] in rows
    {
      assert r[i] == s[i];
    }
    forall i, j | 0 <= i < j < |r|
      ensures r[i].chatIndex >= r[j].chatIndex
    {
      assert r[i] == s[i] && r[j] == s[j];
    }
  }

  /** No chat left out of the window has a higher index than a chat in it. */
  lemma NewestAreNewest(rows: seq<GlobalChat>, c: GlobalChat, i: int)
    requires c in rows && c !in Newest(rows) && 0 <= i < |Newest(rows)|
    ensures c.chatIndex <= Newest(rows)[i].chatIndex
  {
    var s := InsertionSort(rows, ChatAfter);
    Descending(rows);
    SameMembers(s, rows);
    var j :| 0 <= j < |s| && s[j] == c;
    assert Newest(rows)[i] == s[i];
    assert forall k :: 0 <= k < |Newest(rows)| ==> Newest(rows)[k] == s[k];
  }

  /** The first chat of a non-empty window has the highest index of all. */
  lemma NewestFirst(rows: seq<GlobalChat>, c: GlobalChat)
    requires c in rows
    ensures |Newest(rows)| > 0 && c.chatIndex <= Newest(rows)[0].chatIndex
  {
    var s := InsertionSort(rows, ChatAfter);
    Descending(rows);
    SameMembers(s, rows);
    var j :| 0 <= j < |s| && s[j] == c;
    assert Newest(rows)[0] == s[0];
  }

  /** With the chats 1 to 150, the window holds 100 of them and starts with chat 150. */
  lemma HundredFiftyChats(rows: seq<GlobalChat>)
    requires |rows| == 150 && forall i :: 0 <= i < |rows| ==> rows[i].chatIndex == i + 1
    ensures |Newest(rows)| == 100 && Newest(rows)[0] == rows[149]
  {
    NewestWindow(rows);
    NewestFirst(rows, rows[149]);
    var k :| 0 <= k < |rows| && rows[k] == Newest(rows)[0];
  }

  /** A chat with its author's picture: the stored one, or an empty one when the author has
      none or is unknown. */
  function WithPicture(c: GlobalChat, users: map<string, User>): (r: Chat)
    ensures r.chatText == c.chatText && r.author == c.author && r.writtenAt == c.writtenAt
    ensures c.author !in users || users[c.author].profilePic.None? ==> r.profilePic == []
    ensures c.author in users && users[c.author].profilePic.Some? ==>
      r.profilePic == users[c.author].profilePic.value
  {
    Chat(c.chatText, c.author, c.writtenAt, ProfilePicOf(users, c.author).GetOr([]))
  }

  /** The index a new chat gets: one more than the highest stored index, or 1 for an empty
      table; so it is above every stored index. */
  ghost function NextIndex(chats: map<int, GlobalChat>): (n: int)
    ensures chats == map[] ==> n == 1
    ensures chats != map[] ==> n - 1 in chats
    ensures forall i :: i in chats ==> i < n
  {
    if chats == map[] then 1 else MaxKey(chats.Keys) + 1
  }

  /** A non-empty set has a member. */
  lemma HasMember(keys: set<int>)
    requires keys != {}
    ensures exists y :: y in keys
  {
    if forall y :: y !in keys {
      assert false;
    }
  }

  /** The largest element of a finite non-empty set of integers. */
  ghost function MaxKey(keys: set<int>): (m: int)
    requires keys != {}
    ensures m in keys && forall j :: j in keys ==> j <= m
    decreases |keys|
  {
    HasMember(keys);
    var x :| x in keys;
    if keys == {x} then x
    else
      var k := MaxKey(keys - {x});
      assert forall j :: j in keys ==> j == x || j in keys - {x};
      if x <= k then k else x
  }

  /** After a chat is sent, reading the chats shows it first. */
  lemma SentChatShownFirst(chats: map<int, GlobalChat>, c: GlobalChat, rows: seq<GlobalChat>)
    requires forall i :: i in chats ==> chats[i].chatIndex == i
    requires c.chatIndex == NextIndex(chats)
    requires Lists(rows, chats[c.chatIndex := c])
    ensures |Newest(rows)| > 0 && Newest(rows)[0] == c
  {
    NewestFirst(rows, c);
    NewestWindow(rows);
    var r0 := Newest(rows)[0];
    assert r0 in rows;
  }

  class ChatController {
    const db: Database

    constructor(db: Database)
      ensures this.db == db
    {
      this.db := db;
    }

    /** `GetGlobalChats`: the newest hundred chats of the listing `rows`, highest index first,
        each with its author's picture (an empty one when there is none). */
    method GetGlobalChats(rows: seq<GlobalChat>) returns (reply: Reply<seq<Chat>>)
      requires Lists(rows, db.chats)
      ensures reply.Ok? && |reply.value| == |Newest(rows)|
      ensures forall i :: 0 <= i < |reply.value| ==> reply.value[i] == WithPicture(Newest(rows)[i], db.users)
    {
      var shown := Newest(rows);
      var updated: seq<Chat> := [];
      var i := 0;
      while i < |shown|
        invariant 0 <= i <= |shown| && |updated| == i
        invariant forall k :: 0 <= k < i ==> updated[k] == WithPicture(shown[k], db.users)
      {
        var pic := ProfilePicOf(db.users, shown[i].author);
        if pic.None? {
          pic := Some([]);
        }
        updated := updated + [Chat(shown[i].chatText, shown[i].author, shown[i].writtenAt, pic.value)];
        i := i + 1;
      }
      reply := Reply.Ok(updated);
    }

    /** `SendGlobalChat`: a missing email claim is refused and nothing is stored; otherwise
        exactly one chat is added, under the next index, with the sender as author. */
    method SendGlobalChat(email: Option<string>, text: string, now: int) returns (reply: Reply<()>)
      requires db.Valid()
      modifies db`chats
      ensures db.Valid()
      ensures NullOrEmpty(email) ==> reply == Reply.Unauthorized(InvalidToken) && db.chats == old(db.chats)
      ensures !NullOrEmpty(email) ==> (
        var n := NextIndex(old(db.chats));
        reply == Reply.Ok(()) && n !in old(db.chats) &&
        db.chats == old(db.chats)[n := GlobalChat(n, text, email.value, now)])
    {
      if NullOrEmpty(email) {
        return Reply.Unauthorized(InvalidToken);
      }
      var index := 1;
      if db.chats != map[] {
        ghost var m := MaxKey(db.chats.Keys);
        var last :| last in db.chats && forall j :: j in db.chats ==> j <= last;
        index := last + 1;
      }
      assert index == NextIndex(db.chats);
      db.chats := db.chats[index := GlobalChat(index, text, email.value, now)];
      reply := Reply.Ok(());
    }
  }
}
