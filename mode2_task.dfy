/** "Catch the Word": words fall down the canvas; each one that reaches the ground or the
    player is removed and scored by the server, and the replies move points, combo, health and
    the count of correct words. Geometry is abstract: the player test is the parameter `caught`,
    the random spawn is the parameters `roll` and `spawned`, and server replies are applied in
    the order they arrive (`ApplyReplies`).

    The tick callback is a closure: the effect that builds it runs only when `gameStarted`
    changes, and it keeps the difficulty of that render and its own `points`, `combo`,
    `correctWords` and `health`, which the replies to its requests update. */
module Mode2Task {
  import opened Wrappers

  /** `getMaxHealth`. */
  function MaxHealth(difficulty: string): (h: int)
    ensures h >= 1
    ensures difficulty == "Easy" ==> h == 10
    ensures difficulty == "Medium" ==> h == 5
    ensures difficulty == "Hard" ==> h == 3
    ensures difficulty == "EXTREME" ==> h == 1
    ensures difficulty !in {"Easy", "Medium", "Hard", "EXTREME"} ==> h == 5
  {
    match difficulty
    case "Easy" => 10
    case "Medium" => 5
    case "Hard" => 3
    case "EXTREME" => 1
    case _ => 5
  }

  /** The spawn rate `difficultyInt`. */
  function SpawnRate(difficulty: string): real {
    match difficulty
    case "Easy" => 0.005
    case "Medium" => 0.007
    case "Hard" => 0.009
    case "EXTREME" => 0.02
    case _ => 0.007
  }

  /** Points, combo, health and correct words as the game page shows them. */
  datatype Score = Score(points: int, combo: int, health: int, correctWords: nat)

  /** A difficulty change: full health for the new difficulty, everything else zero. */
  function DifficultyReset(difficulty: string): (s: Score)
    ensures s.health == MaxHealth(difficulty) && s.points == 0 && s.combo == 0 && s.correctWords == 0
  {
    Score(0, 0, MaxHealth(difficulty), 0)
  }

  /** A falling word. */
  datatype Drop = Drop(text: string, x: real, y: real, color: string, angle: real, rotSpeed: real,
                       fallSpeed: real, size: int)

  /** A step of `dt`: the word falls by `fallSpeed * dt` and turns by `rotSpeed * dt`. */
  function Moved(d: Drop, dt: real): (m: Drop)
    ensures m.text == d.text && m.y == d.y - d.fallSpeed * dt
  {
    d.(y := d.y - d.fallSpeed * dt, angle := d.angle + d.rotSpeed * dt)
  }

  /** A request to score a word: the word, the points and combo at the time, and whether the
      player caught it (`collision`) rather than it reaching the ground. */
  datatype Request = Request(word: string, combo: int, points: int, collision: bool)

  /** What the server answers to a scoring request. */
  datatype PointsReply = PointsReply(points: int, combo: int)

  /** The collision pass over the list as the loop runs it: a word below the ground after its
      move is scored as a ground hit and removed; otherwise one the player touches is scored
      as a catch and removed; otherwise it stays, moved. An `undefined` slot is removed, and the
      element that moves into its place is then passed over for this tick (the loop does not
      step back after that removal). Returns the remaining list and the requests in order. */
  function Pass(ts: seq<Option<Drop>>, dt: real, caught: Drop -> bool, s: Score)
    : (r: (seq<Option<Drop>>, seq<Request>))
    ensures |r.0| + |r.1| <= |ts|
    decreases |ts|
  {
    if ts == [] then ([], [])
    else if ts[0].None? then
      if |ts| == 1 then ([], [])
      else
        var rest := Pass(ts[2..], dt, caught, s);
        ([ts[1]] + rest.0, rest.1)
    else
      var m := Moved(ts[0].value, dt);
      var rest := Pass(ts[1..], dt, caught, s);
      if m.y < 0.0 then (rest.0, [Request(m.text, s.combo, s.points, false)] + rest.1)
      else if caught(m) then (rest.0, [Request(m.text, s.combo, s.points, true)] + rest.1)
      else ([Some(m)] + rest.0, rest.1)
  }

  predicate AllDefined(ts: seq<Option<Drop>>) {
    forall i :: 0 <= i < |ts| ==> ts[i].Some?
  }

  /** Whether a moved word leaves the list. */
  predicate Removed(m: Drop, caught: Drop -> bool) {
    m.y < 0.0 || caught(m)
  }

  /** The words that stay, moved, in their order. */
  function Survivors(ts: seq<Drop>, dt: real, caught: Drop -> bool): (r: seq<Drop>)
    ensures forall k :: 0 <= k < |r| ==> !Removed(r[k], caught)
    decreases |ts|
  {
    if ts == [] then []
    else
      var m := Moved(ts[0], dt);
      (if Removed(m, caught) then [] else [m]) + Survivors(ts[1..], dt, caught)
  }

  /** The words that leave, moved, in their order. */
  function Leaving(ts: seq<Drop>, dt: real, caught: Drop -> bool): (r: seq<Drop>)
    ensures forall k :: 0 <= k < |r| ==> Removed(r[k], caught)
    decreases |ts|
  {
    if ts == [] then []
    else
      var m := Moved(ts[0], dt);
      (if Removed(m, caught) then [m] else []) + Leaving(ts[1..], dt, caught)
  }

  /** The defined words of a list with no `undefined` slot. */
  function Values(ts: seq<Option<Drop>>): (r: seq<Drop>)
    requires AllDefined(ts)
    ensures |r| == |ts| && forall i :: 0 <= i < |ts| ==> r[i] == ts[i].value
  {
    seq(|ts|, i requires 0 <= i < |ts| => ts[i].value)
  }

  /** The words as list slots. */
  function Slots(ds: seq<Drop>): (r: seq<Option<Drop>>)
    ensures |r| == |ds| && forall k :: 0 <= k < |ds| ==> r[k] == Some(ds[k])
  {
    seq(|ds|, k requires 0 <= k < |ds| => Some(ds[k]))
  }

  /** Without `undefined` slots no word is passed over: every word is moved exactly once and
      the ones that stay are exactly the survivors, in order. */
  lemma {:induction false} PassKeepsSurvivors(ts: seq<Option<Drop>>, dt: real, caught: Drop -> bool, s: Score)
    requires AllDefined(ts)
    ensures Pass(ts, dt, caught, s).0 == Slots(Survivors(Values(ts), dt, caught))
    decreases |ts|
  {
    if ts != [] {
      assert Values(ts)[1..] == Values(ts[1..]);
      PassKeepsSurvivors(ts[1..], dt, caught, s);
    }
  }

  /** Without `undefined` slots there is one request per leaving word, in order, with the
      score at tick time, a ground hit exactly for a word below the ground. */
  lemma {:induction false} PassScoresLeaving(ts: seq<Option<Drop>>, dt: real, caught: Drop -> bool, s: Score)
    requires AllDefined(ts)
    ensures var r := Pass(ts, dt, caught, s).1;
      var leaving := Leaving(Values(ts), dt, caught);
      |r| == |leaving| &&
      (forall k :: 0 <= k < |r| ==> r[k] == Request(leaving[k].text, s.combo, s.points, !(leaving[k].y < 0.0)))
    decreases |ts|
  {
    if ts != [] {
      assert Values(ts)[1..] == Values(ts[1..]);
      var m := Moved(ts[0].value, dt);
      assert Leaving(Values(ts), dt, caught) ==
        (if Removed(m, caught) then [m] else []) + Leaving(Values(ts[1..]), dt, caught);
      PassScoresLeaving(ts[1..], dt, caught, s);
    }
  }

  /** Every word is either kept or scored: the two counts add up to the list's length. */
  lemma {:induction false} SurvivorsAndLeaving(ts: seq<Drop>, dt: real, caught: Drop -> bool)
    ensures |Survivors(ts, dt, caught)| + |Leaving(ts, dt, caught)| == |ts|
    decreases |ts|
  {
    if ts != [] {
      SurvivorsAndLeaving(ts[1..], dt, caught);
    }
  }

  /** An `undefined` slot makes the pass skip the next word: it stays unmoved and unscored. */
  lemma UndefinedSkipsNext(d: Drop, dt: real, caught: Drop -> bool, s: Score)
    ensures Pass([None, Some(d)], dt, caught, s).0 == [Some(d)] && Pass([None, Some(d)], dt, caught, s).1 == []
  {
    assert [None, Some(d)][2..] == [];
    assert Pass([], dt, caught, s) == ([], []);
  }

  /** Every request of a pass, `undefined` slots or not, carries the score the pass started
      from: replies arrive only after the tick. */
  lemma {:induction false} PassRequestsCarryScore(ts: seq<Option<Drop>>, dt: real, caught: Drop -> bool, s: Score)
    ensures forall k :: 0 <= k < |Pass(ts, dt, caught, s).1| ==>
      Pass(ts, dt, caught, s).1[k].points == s.points && Pass(ts, dt, caught, s).1[k].combo == s.combo
    decreases |ts|
  {
    if ts != [] {
      if ts[0].None? {
        if |ts| > 1 {
          PassRequestsCarryScore(ts[2..], dt, caught, s);
        }
      } else {
        PassRequestsCarryScore(ts[1..], dt, caught, s);
      }
    }
  }

  /** A reply to a scoring request: points lower than the current total cost one health; a
      catch that did not lower the points counts as a correct word; points and combo become
      the server's. */
  function ApplyReply(s: Score, reply: PointsReply, collision: bool): (r: Score)
    ensures r.points == reply.points && r.combo == reply.combo
    ensures r.health == if reply.points < s.points then s.health - 1 else s.health
    ensures r.correctWords == if collision && reply.points >= s.points then s.correctWords + 1 else s.correctWords
  {
    var lowered := reply.points < s.points;
    Score(reply.points, reply.combo, if lowered then s.health - 1 else s.health,
          if collision && !lowered then s.correctWords + 1 else s.correctWords)
  }

  /** Replies applied in the order they arrive, each with its request's `collision` flag. */
  function ApplyReplies(s: Score, replies: seq<(PointsReply, bool)>): Score
    decreases |replies|
  {
    if replies == [] then s
    else ApplyReplies(ApplyReply(s, replies[0].0, replies[0].1), replies[1..])
  }

  /** How many replies in a row lower the running points total. */
  function Lowering(points: int, replies: seq<(PointsReply, bool)>): nat
    decreases |replies|
  {
    if replies == [] then 0
    else (if replies[0].0.points < points then 1 else 0) + Lowering(replies[0].0.points, replies[1..])
  }

  /** How many replies in a row are catches that do not lower the running points total. */
  function Correct(points: int, replies: seq<(PointsReply, bool)>): nat
    decreases |replies|
  {
    if replies == [] then 0
    else (if replies[0].1 && replies[0].0.points >= points then 1 else 0) + Correct(replies[0].0.points, replies[1..])
  }

  /** Health goes down by exactly the number of lowering replies, and correct words up by the
      number of catches that did not lower the points. */
  lemma {:induction false} RepliesCount(s: Score, replies: seq<(PointsReply, bool)>)
    ensures ApplyReplies(s, replies).health == s.health - Lowering(s.points, replies)
    ensures ApplyReplies(s, replies).correctWords == s.correctWords + Correct(s.points, replies)
    decreases |replies|
  {
    if replies != [] {
      RepliesCount(ApplyReply(s, replies[0].0, replies[0].1), replies[1..]);
    }
  }

  /** Ground hits never count as correct words. */
  lemma {:induction false} GroundHitsNeverCorrect(points: int, replies: seq<(PointsReply, bool)>)
    requires forall k :: 0 <= k < |replies| ==> !replies[k].1
    ensures Correct(points, replies) == 0
    decreases |replies|
  {
    if replies != [] {
      GroundHitsNeverCorrect(replies[0].0.points, replies[1..]);
    }
  }

  /** A tick callback: which effect run built it (`id`), the `gameStarted` and `difficulty` of
      that render, and the locals `points`, `combo`, `health` and `correctWords` it closes over,
      starting from 0, 0, `healthState` and 0. */
  datatype Tick = Tick(id: nat, gameStarted: bool, difficulty: string, score: Score)

  /** The `Mode2Task` component: the falling words, the `healthState` state, the values last
      handed to the parent's setters (`shown`), the callback the canvas calls on each animation
      frame (`running`; none before the canvas is first handed one), and one the effect has
      built but the canvas has not been handed yet (`pending`): the canvas receives
      `onTickRef.current` as a prop, so the new callback reaches it at the next render. */
  class Mode2Game {
    var textArray: seq<Option<Drop>>
    var healthState: int
    var shown: Score
    var running: Option<Tick>
    var pending: Option<Tick>
    var built: nat

    /** The first render and its effects: the difficulty effect resets what the parent shows,
        and the tick effect builds callback 0 over that render's fresh locals. */
    constructor(gameStarted: bool, difficulty: string)
      ensures textArray == [] && healthState == MaxHealth(difficulty) && shown == DifficultyReset(difficulty)
      ensures running.None? && pending == Some(Tick(0, gameStarted, difficulty, DifficultyReset(difficulty)))
      ensures built == 1
    {
      textArray := [];
      healthState := MaxHealth(difficulty);
      shown := Score(0, 0, MaxHealth(difficulty), 0);
      running := None;
      pending := Some(Tick(0, gameStarted, difficulty, Score(0, 0, MaxHealth(difficulty), 0)));
      built := 1;
    }

    /** The difficulty effect: `healthState` and what the parent shows are reset. The callbacks
        keep the difficulty and the score they captured. */
    method ChangeDifficulty(difficulty: string)
      modifies this`healthState, this`shown
      ensures healthState == MaxHealth(difficulty) && shown == DifficultyReset(difficulty)
    {
      healthState := MaxHealth(difficulty);
      shown := Score(0, 0, MaxHealth(difficulty), 0);
    }

    /** The tick effect when `gameStarted` changes: a new callback over the current render's
        `difficulty` and fresh locals, with `health` taken from `healthState`. The words
        already on the canvas stay. */
    method SetGameStarted(gameStarted: bool, difficulty: string)
      modifies this`pending, this`built
      ensures pending == Some(Tick(old(built), gameStarted, difficulty, Score(0, 0, healthState, 0)))
      ensures built == old(built) + 1
    {
      pending := Some(Tick(built, gameStarted, difficulty, Score(0, 0, healthState, 0)));
      built := built + 1;
    }

    /** A re-render: the canvas is handed the callback the effect last built, if it has a new
        one, and from then on calls that one. */
    method Render()
      modifies this`running, this`pending
      ensures running == if old(pending).Some? then old(pending) else old(running)
      ensures pending.None?
    {
      if pending.Some? {
        running := pending;
        pending := None;
      }
    }

    /** `handleMouseMove`: the handler of the latest render hands that render's `points` to
        the parent. Those are 0, because the only callback that closes over them is the one
        that render's effect built, and the canvas is handed it only at a later render. */
    method OnMouseMove()
      modifies this`shown
      ensures shown == old(shown).(points := 0)
    {
      shown := shown.(points := 0);
    }

    /** A reply to a request the callback `sender` sent: it updates that callback's locals.
        A callback the canvas no longer calls is never read again, so a reply to one changes
        nothing in the model. */
    method OnReply(sender: nat, reply: PointsReply, collision: bool)
      modifies this`running
      ensures running == if old(running).Some? && old(running).value.id == sender
        then Some(old(running).value.(score := ApplyReply(old(running).value.score, reply, collision)))
        else old(running)
    {
      if running.Some? && running.value.id == sender {
        var t := running.value;
        var sc := t.score;
        if reply.points < sc.points {
          sc := sc.(health := sc.health - 1);
        } else if collision {
          sc := sc.(correctWords := sc.correctWords + 1);
        }
        sc := sc.(points := reply.points, combo := reply.combo);
        running := Some(t.(score := sc));
      }
    }

    /** An animation frame: the canvas calls its callback, if it has one. A callback built
        before the game started does nothing; otherwise a word may be spawned at the rate of
        the callback's own difficulty (`roll` is the first `Math.random()`, `spawned` the word
        built from the others), then the collision pass runs with the callback's score, which
        each turn of the loop hands to the parent again. Returns the list, and the scoring
        requests sent, all of which are answered through `OnReply` with the callback's id. */
    method OnTick(dt: real, roll: real, spawned: Drop, caught: Drop -> bool)
      returns (data: Option<seq<Option<Drop>>>, requests: seq<Request>)
      modifies this`textArray, this`shown
      ensures running.None? || !running.value.gameStarted ==>
        data.None? && requests == [] && textArray == old(textArray) && shown == old(shown)
      ensures running.Some? && running.value.gameStarted ==> (
        var t := running.value;
        var rate := SpawnRate(t.difficulty);
        var before := if roll < rate * 2.0 && (|old(textArray)| as real) < rate * 400.0
                      then old(textArray) + [Some(spawned)] else old(textArray);
        textArray == Pass(before, dt, caught, t.score).0 && requests == Pass(before, dt, caught, t.score).1 &&
        data == Some(textArray) &&
        shown == if before == [] then old(shown) else t.score)
    {
      if running.None? || !running.value.gameStarted {
        return None, [];
      }
      var t := running.value;
      var rate := SpawnRate(t.difficulty);
      if roll < rate * 2.0 && (|textArray| as real) < rate * 400.0 {
        textArray := textArray + [Some(spawned)];
      }
      if textArray != [] {
        shown := t.score;
      }
      requests := CollisionPass(dt, caught, t.score);
      data := Some(textArray);
    }

    /** The `for` loop over the list, splicing out what it scores. */
    method CollisionPass(dt: real, caught: Drop -> bool, s: Score) returns (requests: seq<Request>)
      modifies this`textArray
      ensures textArray == Pass(old(textArray), dt, caught, s).0
      ensures requests == Pass(old(textArray), dt, caught, s).1
    {
      requests := [];
      var i := 0;
      while i < |textArray|
        invariant 0 <= i <= |textArray|
        invariant textArray[..i] + Pass(textArray[i..], dt, caught, s).0 == Pass(old(textArray), dt, caught, s).0
        invariant requests + Pass(textArray[i..], dt, caught, s).1 == Pass(old(textArray), dt, caught, s).1
        decreases |textArray| - i
      {
        textArray, i, requests := CollideAt(textArray, i, requests, dt, caught, s);
      }
      assert textArray[i..] == [];
    }
  }

  /** One turn of the loop at index `i`. */
  method CollideAt(a: seq<Option<Drop>>, i: nat, requests: seq<Request>, dt: real, caught: Drop -> bool, s: Score)
    returns (a': seq<Option<Drop>>, i': nat, requests': seq<Request>)
    requires i < |a|
    ensures i' <= |a'| && |a'| - i' < |a| - i
    ensures a'[..i'] + Pass(a'[i'..], dt, caught, s).0 == a[..i] + Pass(a[i..], dt, caught, s).0
    ensures requests' + Pass(a'[i'..], dt, caught, s).1 == requests + Pass(a[i..], dt, caught, s).1
  {
    if a[i].None? {
      a', i', requests' := SkipUndefined(a, i, requests, dt, caught, s);
    } else {
      a', i', requests' := MoveWord(a, i, requests, dt, caught, s);
    }
  }

  /** The `undefined` branch: the slot is spliced out and `continue` steps on to `i + 1`; when
      it was the last slot the loop ends either way. */
  method SkipUndefined(a: seq<Option<Drop>>, i: nat, requests: seq<Request>, dt: real, caught: Drop -> bool, s: Score)
    returns (a': seq<Option<Drop>>, i': nat, requests': seq<Request>)
    requires i < |a| && a[i].None?
    ensures i' <= |a'| && |a'| - i' < |a| - i
    ensures a'[..i'] + Pass(a'[i'..], dt, caught, s).0 == a[..i] + Pass(a[i..], dt, caught, s).0
    ensures requests' + Pass(a'[i'..], dt, caught, s).1 == requests + Pass(a[i..], dt, caught, s).1
  {
    ghost var rest := a[i..];
    assert rest[0] == a[i] && rest[1..] == a[i + 1..];
    a' := a[..i] + a[i + 1..];
    requests' := requests;
    if i < |a'| {
      NoneStep(a[..i], rest, dt, caught, s);
      assert a'[..i + 1] == a[..i] + [rest[1]] && a'[i + 1..] == rest[2..];
      i' := i + 1;
    } else {
      assert a'[i..] == [];
      i' := i;
    }
  }

  /** The word branch: the word is moved, then spliced out and scored (with `i--` cancelling
      the step) when it is below the ground or touches the player, and kept otherwise. */
  method MoveWord(a: seq<Option<Drop>>, i: nat, requests: seq<Request>, dt: real, caught: Drop -> bool, s: Score)
    returns (a': seq<Option<Drop>>, i': nat, requests': seq<Request>)
    requires i < |a| && a[i].Some?
    ensures i' <= |a'| && |a'| - i' < |a| - i
    ensures a'[..i'] + Pass(a'[i'..], dt, caught, s).0 == a[..i] + Pass(a[i..], dt, caught, s).0
    ensures requests' + Pass(a'[i'..], dt, caught, s).1 == requests + Pass(a[i..], dt, caught, s).1
  {
    ghost var rest := a[i..];
    assert rest[0] == a[i] && rest[1..] == a[i + 1..];
    var m := Moved(a[i].value, dt);
    SomeStep(rest, dt, caught, s);
    if m.y < 0.0 {
      // ground hit
      requests' := requests + [Request(m.text, s.combo, s.points, false)];
      a', i' := a[..i] + a[i + 1..], i;
      assert a'[..i] == a[..i] && a'[i..] == rest[1..];
    } else if caught(m) {
      // caught by the player
      requests' := requests + [Request(m.text, s.combo, s.points, true)];
      a', i' := a[..i] + a[i + 1..], i;
      assert a'[..i] == a[..i] && a'[i..] == rest[1..];
    } else {
      requests' := requests;
      a', i' := a[i := Some(m)], i + 1;
      assert a'[..i + 1] == a[..i] + [Some(m)] && a'[i + 1..] == rest[1..];
    }
  }

  /** The pass over a list starting with an `undefined` slot keeps the next element as it is. */
  lemma NoneStep(done: seq<Option<Drop>>, rest: seq<Option<Drop>>, dt: real, caught: Drop -> bool, s: Score)
    requires |rest| > 1 && rest[0].None?
    ensures var r := Pass(rest[2..], dt, caught, s);
      done + Pass(rest, dt, caught, s).0 == (done + [rest[1]]) + r.0 && Pass(rest, dt, caught, s).1 == r.1
  {
  }

  /** The pass over a list starting with a word: scored and dropped, or kept moved. */
  lemma SomeStep(rest: seq<Option<Drop>>, dt: real, caught: Drop -> bool, s: Score)
    requires |rest| > 0 && rest[0].Some?
    ensures var m := Moved(rest[0].value, dt);
      var p := Pass(rest, dt, caught, s);
      var r := Pass(rest[1..], dt, caught, s);
      (m.y < 0.0 ==> p.0 == r.0 && p.1 == [Request(m.text, s.combo, s.points, false)] + r.1) &&
      (!(m.y < 0.0) && caught(m) ==> p.0 == r.0 && p.1 == [Request(m.text, s.combo, s.points, true)] + r.1) &&
      (!(m.y < 0.0) && !caught(m) ==> p.0 == [Some(m)] + r.0 && p.1 == r.1)
  {
  }
}
