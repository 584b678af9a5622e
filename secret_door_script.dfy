/** The secret-door script: a keypad of three code buttons and an enter button. Interacting
    with a code button appends its digit to the entered code; interacting with the enter
    button submits the code to the page at most once a second and clears it, and a positive
    answer removes the door and the enter button. On its first update the script counts the
    hint books and asks the page for that many hints, which it then hands out to the books in
    view order. A win is reported once, with the whole seconds played. The page calls
    (`checkDoorCode`, `getBookHints`, `winGame`) are the values the methods return, and the
    page's answers are the methods `OnCheckDoorCodeResponse` and `SetBookHints`. */
module SecretDoorScript {
  import opened Wrappers
  import opened PhysicsWorld
  import opened Scene
  import opened ObjectCarry
  import opened Player
  import opened Task3HintGenerator
  import opened Task3

  const CodeEnterTag: string := "codeEnter"
  const SecretDoorTag: string := "secretDoor"
  const GoldenBookTag: string := "goldenBook"
  const HintBookTag: string := "hintBook"

  /** Milliseconds that must pass after a submission (or after construction) before the next. */
  const ThrottleMs: int := 1000

  /** What an aimed entity is to the keypad, read from its tag in the order the listener
      tests them: the golden book, the enter button, a code button with its digit, or
      anything else. */
  datatype Button = GoldenBook | CodeEnter | Digit(d: char) | Other

  function Classify(tag: string): (b: Button)
    ensures b == GoldenBook <==> tag == GoldenBookTag
    ensures b == CodeEnter <==> tag == CodeEnterTag
    ensures b.Digit? <==> tag == "code1" || tag == "code2" || tag == "code3"
    ensures b.Digit? ==> '1' <= b.d <= '3' && tag == "code" + [b.d]
  {
    if tag == GoldenBookTag then GoldenBook
    else if tag == CodeEnterTag then CodeEnter
    else if tag == "code1" then Digit('1')
    else if tag == "code2" then Digit('2')
    else if tag == "code3" then Digit('3')
    else Other
  }

  /** The keypad state: the code entered so far, the time of the last submission (the global
      `lastCheckTime`) and whether a check callback has been installed. */
  datatype Keypad = Keypad(entered: string, lastCheck: int, awaiting: bool)

  /** An entered code only ever holds the digits 1 to 3. */
  ghost predicate DigitsOnly(s: string) {
    forall j :: 0 <= j < |s| ==> '1' <= s[j] <= '3'
  }

  /** Interacting with button `b` at time `now`: the keypad afterwards and the code
      submitted, if any. */
  function Press(k: Keypad, b: Button, now: int): (r: (Keypad, Option<string>))
    ensures r.1.Some? <==> b == CodeEnter && now - k.lastCheck >= ThrottleMs
    ensures r.1.Some? ==> r.1.value == k.entered && r.0 == Keypad([], now, true)
    ensures b.Digit? ==> r == (k.(entered := k.entered + [b.d]), None)
    ensures b == GoldenBook || b == Other ==> r == (k, None)
    ensures b == CodeEnter && r.1.None? ==> r.0 == k
  {
    match b
    case GoldenBook => (k, None)
    case CodeEnter =>
      if now - k.lastCheck < ThrottleMs then (k, None) else (Keypad([], now, true), Some(k.entered))
    case Digit(d) => (k.(entered := k.entered + [d]), None)
    case Other => (k, None)
  }

  /** Pressing the buttons of the scene keeps the entered code to digits 1 to 3, and so does
      what it submits. */
  lemma PressKeepsDigits(k: Keypad, tag: string, now: int)
    requires DigitsOnly(k.entered)
    ensures DigitsOnly(Press(k, Classify(tag), now).0.entered)
    ensures Press(k, Classify(tag), now).1.Some? ==> DigitsOnly(Press(k, Classify(tag), now).1.value)
  {
  }

  /** The ray-cast filter of the Interact listener: tagged and INTERACTABLE. */
  function DoorFilter(comps: map<Entity, Components>): RayHit -> bool {
    (h: RayHit) => TagOf(comps, h.entity).Some? && Interactable in FlagsOf(comps, h.entity)
  }

  /** The tag of the nearest tagged, interactable hit. */
  function Aimed(comps: map<Entity, Components>, hits: seq<RayHit>): (r: Option<string>)
    ensures r.Some? ==> exists h :: h in hits && TagOf(comps, h.entity) == r && Interactable in FlagsOf(comps, h.entity)
    ensures r.None? ==> forall h :: h in hits ==> TagOf(comps, h.entity).None? || Interactable !in FlagsOf(comps, h.entity)
  {
    var first := FirstHit(hits, DoorFilter(comps));
    if first.Some? then TagOf(comps, first.value.entity) else None
  }

  /** The Interact listener: nothing while an object is carried or when nothing suitable is
      aimed at; otherwise the aimed button is pressed. */
  function Interaction(k: Keypad, carrying: bool, comps: map<Entity, Components>, hits: seq<RayHit>, now: int)
    : (r: (Keypad, Option<string>))
    ensures carrying ==> r == (k, None)
    ensures !carrying && Aimed(comps, hits).Some? ==> r == Press(k, Classify(Aimed(comps, hits).value), now)
    ensures Aimed(comps, hits).None? ==> r == (k, None)
  {
    if carrying then (k, None)
    else
      var tag := Aimed(comps, hits);
      if tag.None? then (k, None) else Press(k, Classify(tag.value), now)
  }

  /** Presses of a sequence of buttons at the same time, collecting the submissions. */
  function PressAll(k: Keypad, bs: seq<Button>, now: int): (r: (Keypad, seq<string>))
    decreases |bs|
  {
    if |bs| == 0 then (k, [])
    else
      var step := Press(k, bs[0], now);
      var rest := PressAll(step.0, bs[1..], now);
      (rest.0, (if step.1.Some? then [step.1.value] else []) + rest.1)
  }

  /** The buttons to press to enter `code`. */
  function Buttons(code: string): (r: seq<Button>)
    ensures |r| == |code|
    ensures forall j :: 0 <= j < |code| ==> r[j] == Digit(code[j])
  {
    seq(|code|, j requires 0 <= j < |code| => Digit(code[j]))
  }

  /** Pressing the buttons of a code appends exactly that code and submits nothing. */
  lemma {:induction false} PressButtonsAppends(k: Keypad, code: string, now: int)
    ensures PressAll(k, Buttons(code), now) == (k.(entered := k.entered + code), [])
    decreases |code|
  {
    if |code| > 0 {
      var bs := Buttons(code);
      assert bs[1..] == Buttons(code[1..]);
      var k1 := k.(entered := k.entered + [code[0]]);
      assert Press(k, bs[0], now) == (k1, None);
      PressButtonsAppends(k1, code[1..], now);
      var rest := PressAll(k1, bs[1..], now);
      assert PressAll(k, bs, now) == (rest.0, [] + rest.1);
      assert rest == (k1.(entered := k1.entered + code[1..]), []);
      assert [] + rest.1 == [];
      assert k1.entered + code[1..] == k.entered + code;
    } else {
      assert k.entered + code == k.entered;
    }
  }

  /** Two submissions are at least a second apart: a second press of the enter button within
      a second of a submission submits nothing and keeps what was entered since. */
  lemma SubmissionsThrottled(k: Keypad, t1: int, between: seq<Button>, t2: int)
    requires Press(k, CodeEnter, t1).1.Some?
    requires forall j :: 0 <= j < |between| ==> between[j] != CodeEnter
    requires t1 <= t2 < t1 + ThrottleMs
    ensures var k1 := PressAll(Press(k, CodeEnter, t1).0, between, t2).0;
      k1.lastCheck == t1 && Press(k1, CodeEnter, t2) == (k1, None)
  {
    OtherPressesKeepCheck(Press(k, CodeEnter, t1).0, between, t2);
  }

  /** Buttons other than enter change neither the time of the last submission nor submit
      anything. */
  lemma {:induction false} OtherPressesKeepCheck(k: Keypad, bs: seq<Button>, now: int)
    requires forall j :: 0 <= j < |bs| ==> bs[j] != CodeEnter
    ensures PressAll(k, bs, now).0.lastCheck == k.lastCheck && PressAll(k, bs, now).1 == []
    decreases |bs|
  {
    if |bs| > 0 {
      OtherPressesKeepCheck(Press(k, bs[0], now).0, bs[1..], now);
    }
  }

  /** End to end: from a cleared keypad, a second after the last submission, pressing the
      buttons of the door code of task version `v` and then the enter button submits a code
      the server accepts for `v`. */
  lemma DoorCodeOpens(v: Int32, lastCheck: int, now: int)
    requires v != MinInt32 && now - lastCheck >= ThrottleMs
    ensures var code := GetDoorCode(v).value;
      (forall j :: 0 <= j < |code| ==> Buttons(code)[j] == Classify("code" + [code[j]])) &&
      var typed := PressAll(Keypad([], lastCheck, false), Buttons(code), now);
      var sent := Press(typed.0, CodeEnter, now).1;
      sent == Some(code) && CheckCode(sent.value, v) == Ok(true)
  {
    var code := GetDoorCode(v).value;
    forall j | 0 <= j < |code| ensures Buttons(code)[j] == Classify("code" + [code[j]]) {
      CodeButtonIsDigit(code[j]);
    }
    PressButtonsAppends(Keypad([], lastCheck, false), code, now);
    assert [] + code == code;
  }

  /** The code button for a digit from 1 to 3 is classified as that digit. */
  lemma CodeButtonIsDigit(d: char)
    requires '1' <= d <= '3'
    ensures Classify("code" + [d]) == Digit(d)
  {
    if d == '1' {
      assert "code" + [d] == "code1";
    } else if d == '2' {
      assert "code" + [d] == "code2";
    } else {
      assert "code" + [d] == "code3";
    }
  }

  /** The entities a successful check destroys: those tagged "secretDoor" or "codeEnter". */
  function DoorEntities(comps: map<Entity, Components>): (r: set<Entity>)
    ensures forall e :: e in r <==> TagOf(comps, e) == Some(SecretDoorTag) || TagOf(comps, e) == Some(CodeEnterTag)
    ensures r <= comps.Keys
  {
    set e | e in comps && (comps[e].tag == Some(SecretDoorTag) || comps[e].tag == Some(CodeEnterTag))
  }

  /** Opening the door leaves no door or enter button and every other entity as it was. */
  lemma OpeningSparesOthers(comps: map<Entity, Components>)
    ensures var after := comps - DoorEntities(comps);
      (forall e :: e in after ==> TagOf(after, e) != Some(SecretDoorTag) && TagOf(after, e) != Some(CodeEnterTag)) &&
      (forall e :: e in comps && TagOf(comps, e) != Some(SecretDoorTag) && TagOf(comps, e) != Some(CodeEnterTag)
         ==> e in after && after[e] == comps[e])
  {
  }

  predicate IsHintBook(comps: map<Entity, Components>, e: Entity) {
    TagOf(comps, e) == Some(HintBookTag)
  }

  /** The hint books among `order`, in that order. */
  function HintBooks(comps: map<Entity, Components>, order: seq<Entity>): (r: seq<Entity>)
    ensures |r| <= |order|
    ensures forall e :: e in r <==> e in order && IsHintBook(comps, e)
    ensures forall k :: 0 <= k < |r| ==> r[k] in comps
    decreases |order|
  {
    if |order| == 0 then []
    else (if IsHintBook(comps, order[0]) then [order[0]] else []) + HintBooks(comps, order[1..])
  }

  /** `order` is a view of the `TagComponent` storage: each tagged entity exactly once. */
  ghost predicate TagView(comps: map<Entity, Components>, order: seq<Entity>) {
    (forall i, j :: 0 <= i < j < |order| ==> order[i] != order[j]) &&
    (forall e :: e in order <==> TagOf(comps, e).Some?)
  }

  /** The hint callback's loop, as a function: walking the view, each hint book takes the
      next hint until the hints run out. */
  function AssignHints(comps: map<Entity, Components>, order: seq<Entity>, hints: seq<string>)
    : (r: map<Entity, Components>)
    ensures r.Keys == comps.Keys
    decreases |order|
  {
    if |order| == 0 || |hints| == 0 then comps
    else if !IsHintBook(comps, order[0]) then AssignHints(comps, order[1..], hints)
    else AssignHints(comps[order[0] := comps[order[0]].(bookHint := Some(hints[0]))], order[1..], hints[1..])
  }

  /** The hint books of a view do not depend on the books' hints. */
  lemma {:induction false} HintBooksIgnoreHints(c1: map<Entity, Components>, c2: map<Entity, Components>, order: seq<Entity>)
    requires forall e :: TagOf(c1, e) == TagOf(c2, e)
    ensures HintBooks(c1, order) == HintBooks(c2, order)
    decreases |order|
  {
    if |order| > 0 {
      HintBooksIgnoreHints(c1, c2, order[1..]);
    }
  }

  /** The hint callback changes nothing but hints. */
  lemma {:induction false} AssignHintsOnlyHints(comps: map<Entity, Components>, order: seq<Entity>, hints: seq<string>)
    ensures var r := AssignHints(comps, order, hints);
      forall e :: e in comps ==> r[e].(bookHint := comps[e].bookHint) == comps[e]
    decreases |order|
  {
    if |order| == 0 || |hints| == 0 {
    } else if !IsHintBook(comps, order[0]) {
      AssignHintsOnlyHints(comps, order[1..], hints);
    } else {
      var o := order[0];
      var c1 := comps[o := comps[o].(bookHint := Some(hints[0]))];
      AssignHintsOnlyHints(c1, order[1..], hints[1..]);
    }
  }

  /** A view without repeats stays one when its head is taken off. */
  lemma DistinctTail(order: seq<Entity>)
    requires |order| > 0 && forall i, j :: 0 <= i < j < |order| ==> order[i] != order[j]
    ensures forall i, j :: 0 <= i < j < |order[1..]| ==> order[1..][i] != order[1..][j]
    ensures order[0] !in order[1..]
  {
    forall i, j | 0 <= i < j < |order[1..]| ensures order[1..][i] != order[1..][j] {
      assert order[1..][i] == order[i + 1] && order[1..][j] == order[j + 1];
    }
  }

  /** The k-th hint book of the view gets the k-th hint, for every k below both counts. */
  lemma {:induction false} AssignHintsGives(comps: map<Entity, Components>, order: seq<Entity>, hints: seq<string>)
    requires forall i, j :: 0 <= i < j < |order| ==> order[i] != order[j]
    ensures var r := AssignHints(comps, order, hints);
      var books := HintBooks(comps, order);
      forall k :: 0 <= k < |books| && k < |hints| ==> r[books[k]].bookHint == Some(hints[k])
    decreases |order|
  {
    if |order| == 0 || |hints| == 0 {
    } else if !IsHintBook(comps, order[0]) {
      DistinctTail(order);
      AssignHintsGives(comps, order[1..], hints);
    } else {
      var o := order[0];
      var c1 := comps[o := comps[o].(bookHint := Some(hints[0]))];
      assert forall e :: TagOf(c1, e) == TagOf(comps, e);
      HintBooksIgnoreHints(c1, comps, order[1..]);
      DistinctTail(order);
      AssignHintsGives(c1, order[1..], hints[1..]);
      AssignHintsSparesHead(c1, order[1..], hints[1..], o);
      var rest := HintBooks(comps, order[1..]);
      var books := HintBooks(comps, order);
      assert books == [o] + rest;
      var r := AssignHints(comps, order, hints);
      forall k | 0 <= k < |books| && k < |hints| ensures r[books[k]].bookHint == Some(hints[k]) {
        if k > 0 {
          assert books[k] == rest[k - 1];
        }
      }
    }
  }

  /** An entity outside the view keeps its components. */
  lemma {:induction false} AssignHintsSparesHead(comps: map<Entity, Components>, order: seq<Entity>, hints: seq<string>, e: Entity)
    requires e !in order
    ensures e in comps ==> AssignHints(comps, order, hints)[e] == comps[e]
    decreases |order|
  {
    if |order| == 0 || |hints| == 0 {
    } else if !IsHintBook(comps, order[0]) {
      AssignHintsSparesHead(comps, order[1..], hints, e);
    } else {
      var o := order[0];
      AssignHintsSparesHead(comps[o := comps[o].(bookHint := Some(hints[0]))], order[1..], hints[1..], e);
    }
  }

  /** Every entity that is not among the first hint books, one per hint, stays as it was. */
  lemma {:induction false} AssignHintsSpares(comps: map<Entity, Components>, order: seq<Entity>, hints: seq<string>, e: Entity)
    requires forall k :: 0 <= k < |HintBooks(comps, order)| && k < |hints| ==> HintBooks(comps, order)[k] != e
    ensures e in comps ==> AssignHints(comps, order, hints)[e] == comps[e]
    decreases |order|
  {
    if |order| == 0 || |hints| == 0 {
    } else if !IsHintBook(comps, order[0]) {
      assert HintBooks(comps, order) == HintBooks(comps, order[1..]);
      AssignHintsSpares(comps, order[1..], hints, e);
    } else {
      var o := order[0];
      var c1 := comps[o := comps[o].(bookHint := Some(hints[0]))];
      assert forall x :: TagOf(c1, x) == TagOf(comps, x);
      HintBooksIgnoreHints(c1, comps, order[1..]);
      var rest := HintBooks(comps, order[1..]);
      assert HintBooks(comps, order) == [o] + rest;
      assert HintBooks(comps, order)[0] == o;
      forall k | 0 <= k < |rest| && k < |hints[1..]| ensures rest[k] != e {
        assert HintBooks(comps, order)[k + 1] == rest[k];
      }
      AssignHintsSpares(c1, order[1..], hints[1..], e);
    }
  }

  class SecretDoorScript {
    const player: Player
    var entered: string
    var lastCheck: int
    var awaiting: bool
    var initBookHints: bool
    var hintsAwaited: bool
    var won: bool
    var startTime: int
    var endTime: int

    function Pad(): Keypad
      reads this`entered, this`lastCheck, this`awaiting
    {
      Keypad(entered, lastCheck, awaiting)
    }

    /** The entered code holds digits 1 to 3 only, and the clock has not run backwards. */
    ghost predicate Valid()
      reads this`entered, this`startTime, this`endTime
    {
      DigitsOnly(entered) && startTime <= endTime
    }

    /** Construction at time `now` resets the global time of the last check to `now`. */
    constructor(player: Player, now: int)
      ensures this.player == player && Valid()
      ensures Pad() == Keypad([], now, false)
      ensures initBookHints && !hintsAwaited && !won && startTime == now && endTime == now
    {
      this.player := player;
      entered := [];
      lastCheck := now;
      awaiting := false;
      initBookHints := true;
      hintsAwaited := false;
      won := false;
      startTime := now;
      endTime := now;
    }

    /** The Interact listener with the ray-cast records `hits` at time `now`; returns the code
        passed to `checkDoorCode`, if any. */
    method Interact(hits: seq<RayHit>, now: int) returns (submitted: Option<string>)
      requires Valid()
      modifies this`entered, this`lastCheck, this`awaiting
      ensures Valid()
      ensures (Pad(), submitted) ==
        Interaction(old(Pad()), player.objectCarry.carriedEntity.Some?, player.scene.components, hits, now)
    {
      submitted := None;
      if player.objectCarry.carriedEntity.Some? {
        return;
      }
      var tag := Aimed(player.scene.components, hits);
      if tag.None? {
        return;
      }
      match Classify(tag.value)
      case GoldenBook =>
      case CodeEnter =>
        if now - lastCheck < ThrottleMs {
          return;
        }
        lastCheck := now;
        awaiting := true;
        submitted := Some(entered);
        entered := [];
      case Digit(d) =>
        entered := entered + [d];
      case Other =>
    }

    /** `checkDoorCodeResponse(success)`, which calls the callback the last submission
        installed (there is none before the first). A success destroys the door and the enter
        button, with their bodies; a failure changes nothing. */
    method OnCheckDoorCodeResponse(success: bool)
      requires awaiting && player.scene.Valid()
      modifies player.scene`components, player.scene.world`bodies
      ensures player.scene.Valid()
      ensures success ==> player.scene.components == old(player.scene.components) - DoorEntities(old(player.scene.components))
      ensures success ==> (player.scene.world.bodies ==
        BodiesNotOwnedBy(old(player.scene.world.bodies), DoorEntities(old(player.scene.components))))
      ensures !success ==> (player.scene.components == old(player.scene.components) &&
        player.scene.world.bodies == old(player.scene.world.bodies))
    {
      if !success {
        return;
      }
      player.scene.DestroyAll(DoorEntities(player.scene.components));
    }

    /** Counting the hint books of the view `order`. */
    method CountHintBooks(order: seq<Entity>) returns (n: nat)
      ensures n == |HintBooks(player.scene.components, order)|
    {
      n := 0;
      var k := 0;
      while k < |order|
        invariant 0 <= k <= |order|
        invariant n + |HintBooks(player.scene.components, order[k..])| == |HintBooks(player.scene.components, order)|
      {
        assert order[k..][1..] == order[k + 1..];
        if TagOf(player.scene.components, order[k]) == Some(HintBookTag) {
          n := n + 1;
        }
        k := k + 1;
      }
    }

    /** `Update` at time `now` with the view `order` of tagged entities and the ray-cast records
        `hits`. On the first update the hint books are counted, the hint callback installed and
        the count returned for `getBookHints`. While nothing is carried, a keypad button aimed
        at yields its control hint. The end time follows the clock until the game is won. */
    method Update(order: seq<Entity>, hits: seq<RayHit>, now: int) returns (request: Option<nat>, hint: Option<string>)
      requires Valid() && now >= endTime
      modifies this`initBookHints, this`hintsAwaited, this`endTime
      ensures Valid() && !initBookHints
      ensures request.Some? <==> old(initBookHints)
      ensures request.Some? ==> request.value == |HintBooks(player.scene.components, order)| && hintsAwaited
      ensures request.None? ==> hintsAwaited == old(hintsAwaited)
      ensures hint == AimHint(player.objectCarry.carriedEntity.Some?, player.scene.components, hits)
      ensures endTime == if won then old(endTime) else now
    {
      // The hint reads nothing the rest of the update changes, so it is taken first.
      hint := AimHint(player.objectCarry.carriedEntity.Some?, player.scene.components, hits);
      request := None;
      if initBookHints {
        initBookHints := false;
        var n := CountHintBooks(order);
        hintsAwaited := true;
        request := Some(n);
      }

      if !won {
        endTime := now;
      }
    }

    /** `setBookHints(hints)`, which calls the callback the first update installed: walking
        the view `order`, each hint book takes the next hint until they run out. */
    method SetBookHints(hints: seq<string>, order: seq<Entity>)
      requires hintsAwaited && player.scene.Valid()
      modifies player.scene`components
      ensures player.scene.Valid()
      ensures player.scene.components == AssignHints(old(player.scene.components), order, hints)
    {
      var scene := player.scene;
      var k := 0;
      var idx := 0;
      while k < |order|
        invariant 0 <= k <= |order| && 0 <= idx <= |hints| && scene.Valid()
        invariant AssignHints(scene.components, order[k..], hints[idx..]) == AssignHints(old(scene.components), order, hints)
      {
        assert order[k..][1..] == order[k + 1..];
        var e := order[k];
        if TagOf(scene.components, e) != Some(HintBookTag) {
          k := k + 1;
          continue;
        }
        if idx >= |hints| {
          break;
        }
        assert hints[idx..][1..] == hints[idx + 1..];
        scene.SetComponents(e, scene.components[e].(bookHint := Some(hints[idx])));
        idx := idx + 1;
        k := k + 1;
      }
    }

    /** `Win`: the first call reports the whole seconds from start to end for `winGame` and
        stops the clock; any later call reports nothing. */
    method Win() returns (reported: Option<nat>)
      requires Valid()
      modifies this`won
      ensures Valid() && won
      ensures old(won) ==> reported.None?
      ensures !old(won) ==> reported == Some((endTime - startTime) / 1000)
    {
      if won {
        return None;
      }
      won := true;
      reported := Some((endTime - startTime) / 1000);
    }
  }

  /** The control hint of an update: the one of the aimed keypad button, searched only while
      nothing is carried. */
  function AimHint(carrying: bool, comps: map<Entity, Components>, hits: seq<RayHit>): (r: Option<string>)
    ensures carrying ==> r.None?
    ensures !carrying ==> r == KeypadHint(Aimed(comps, hits))
  {
    if carrying then None else KeypadHint(Aimed(comps, hits))
  }

  /** The control hint for an aimed keypad button. */
  function KeypadHint(tag: Option<string>): (r: Option<string>)
    ensures r.Some? <==> tag.Some? && (Classify(tag.value).Digit? || Classify(tag.value) == CodeEnter)
    ensures r.Some? && Classify(tag.value).Digit? ==> r.value == "E - enter " + [Classify(tag.value).d]
    ensures r.Some? && Classify(tag.value) == CodeEnter ==> r.value == "E - enter code"
  {
    if tag == Some("code1") then Some("E - enter 1")
    else if tag == Some("code2") then Some("E - enter 2")
    else if tag == Some("code3") then Some("E - enter 3")
    else if tag == Some(CodeEnterTag) then Some("E - enter code")
    else None
  }
}
