/** The game's main script: it owns the sub-scripts and updates them once per frame, removing
    those marked for destruction by swapping each with the last one and popping it. What the
    sub-scripts do on update is modelled in their own modules; here an update is recorded in
    the order it happens. */
module MainScript {
  datatype ScriptKind = HeldObject | ObjectInteract | SecretDoor | ControlHints

  /** One owned script: its kind, an identity, and `IsMarkedForDestruction()`. */
  datatype ScriptSlot = ScriptSlot(kind: ScriptKind, id: nat, marked: bool)

  /** The scripts not marked for destruction, in order. */
  function Unmarked(s: seq<ScriptSlot>): seq<ScriptSlot> {
    if |s| == 0 then [] else (if s[0].marked then [] else [s[0]]) + Unmarked(s[1..])
  }

  /** `Unmarked` keeps every unmarked script as often as it occurs and drops every marked one. */
  lemma {:induction false} UnmarkedCount(s: seq<ScriptSlot>)
    ensures forall x :: multiset(Unmarked(s))[x] == if x.marked then 0 else multiset(s)[x]
  {
    if |s| > 0 {
      UnmarkedCount(s[1..]);
      assert s == [s[0]] + s[1..];
      assert multiset(s) == multiset{s[0]} + multiset(s[1..]);
    }
  }

  /** `std::swap(m_scripts[i], m_scripts.back())` followed by `pop_back()`. */
  function SwapPop(s: seq<ScriptSlot>, i: nat): (t: seq<ScriptSlot>)
    requires i < |s|
    ensures |t| == |s| - 1
  {
    s[i := s[|s| - 1]][|s| - 1 := s[i]][..|s| - 1]
  }

  /** Swap-and-pop removes exactly the script at `i` and keeps those before it in place. */
  lemma SwapPopRemoves(s: seq<ScriptSlot>, i: nat)
    requires i < |s|
    ensures SwapPop(s, i)[..i] == s[..i]
    ensures multiset(SwapPop(s, i)) == multiset(s) - multiset{s[i]}
  {
    var n := |s| - 1;
    var t := SwapPop(s, i);
    if i < n {
      assert t == s[..i] + [s[n]] + s[i + 1..n];
      assert s == s[..i] + [s[i]] + s[i + 1..n] + [s[n]];
    } else {
      assert t == s[..n];
      assert s == s[..n] + [s[n]];
    }
  }

  /** Two lists hold the same unmarked scripts, each as often. */
  ghost predicate SameUnmarked(a: seq<ScriptSlot>, b: seq<ScriptSlot>) {
    forall x: ScriptSlot :: !x.marked ==> multiset(a)[x] == multiset(b)[x]
  }

  /** Swap-and-pop of a marked script keeps the unmarked ones and the scripts before it. */
  lemma SwapPopMarked(s: seq<ScriptSlot>, i: nat, o: seq<ScriptSlot>)
    requires i < |s| && s[i].marked && SameUnmarked(s, o)
    ensures SameUnmarked(SwapPop(s, i), o)
    ensures forall k :: 0 <= k < i ==> SwapPop(s, i)[k] == s[k]
  {
    SwapPopRemoves(s, i);
    assert forall k :: 0 <= k < i ==> SwapPop(s, i)[k] == SwapPop(s, i)[..i][k];
  }

  /** A list with nothing marked that holds the same unmarked scripts as `b` is, as a
      multiset, the unmarked part of `b`. */
  lemma ClearListIsUnmarkedPart(a: seq<ScriptSlot>, b: seq<ScriptSlot>)
    requires forall k :: 0 <= k < |a| ==> !a[k].marked
    requires SameUnmarked(a, b)
    ensures multiset(a) == multiset(Unmarked(b))
  {
    UnmarkedCount(b);
    assert forall x: ScriptSlot :: multiset(a)[x] == multiset(Unmarked(b))[x];
  }

  class MainScript {
    var scripts: seq<ScriptSlot>

    /** The four sub-scripts in order: held object, object interaction, secret door, control
        hints; none is marked. */
    constructor()
      ensures |scripts| == 4
      ensures scripts[0].kind == HeldObject && scripts[1].kind == ObjectInteract
      ensures scripts[2].kind == SecretDoor && scripts[3].kind == ControlHints
      ensures forall k :: 0 <= k < |scripts| ==> !scripts[k].marked && scripts[k].id == k
    {
      scripts := [ScriptSlot(HeldObject, 0, false), ScriptSlot(ObjectInteract, 1, false),
                  ScriptSlot(SecretDoor, 2, false), ScriptSlot(ControlHints, 3, false)];
    }

    /** `MarkForDestruction` on the script at `k`. */
    method Mark(k: nat)
      requires k < |scripts|
      modifies this`scripts
      ensures scripts == old(scripts)[k := old(scripts)[k].(marked := true)]
    {
      scripts := scripts[k := scripts[k].(marked := true)];
    }

    /** One pass: every unmarked script is updated exactly once (`updated`, in update order), no
        marked one is. Afterwards no marked script remains, the unmarked ones are all still
        there (their order may change), and the list reads as the order they were updated in.
        The source steps back over the slot it refilled with an unsigned `i--`, which wraps
        and is undone by the loop's `i++`; here the index simply stays. */
    method Update() returns (updated: seq<ScriptSlot>)
      modifies this`scripts
      ensures forall k :: 0 <= k < |scripts| ==> !scripts[k].marked
      ensures multiset(scripts) == multiset(Unmarked(old(scripts)))
      ensures updated == scripts
    {
      updated := [];
      var i := 0;
      while i < |scripts|
        invariant 0 <= i <= |scripts| && updated == scripts[..i]
        invariant forall k :: 0 <= k < i ==> !scripts[k].marked
        invariant SameUnmarked(scripts, old(scripts))
        decreases |scripts| - i
      {
        if scripts[i].marked {
          SwapPopMarked(scripts, i, old(scripts));
          scripts := SwapPop(scripts, i);
          continue;
        }
        updated := updated + [scripts[i]];
        i := i + 1;
      }
      ClearListIsUnmarkedPart(scripts, old(scripts));
    }
  }
}
