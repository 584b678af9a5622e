/** The game's actions and the set of them currently enabled. Key mappings trigger actions and
    scripts listen to them; scripts also disable and re-enable actions. */
module GameActions {
  datatype Action = PickUp | Throw | Interact | WinGame

  class Actions {
    var enabled: set<Action>

    /** Every action starts enabled. */
    constructor()
      ensures enabled == {PickUp, Throw, Interact, WinGame}
    {
      enabled := {PickUp, Throw, Interact, WinGame};
    }

    predicate IsEnabled(a: Action)
      reads this`enabled
    {
      a in enabled
    }

    method Enable(a: Action)
      modifies this`enabled
      ensures enabled == old(enabled) + {a}
    {
      enabled := enabled + {a};
    }

    method Disable(a: Action)
      modifies this`enabled
      ensures enabled == old(enabled) - {a}
    {
      enabled := enabled - {a};
    }
  }
}
