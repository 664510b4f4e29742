/** The preset manager object: a map from preset name to preset, the ordered
    list of protected default names and the ordered list of change
    listeners, all updated in place. Each mutating method is proved to move
    the object exactly as the matching step function of module Registry
    does; the ghost `notifications` log records every listener call, in
    order, with the registry state the listener was handed. */
module Presets {
  import opened Schema
  import Registry

  class PresetManager {
    var presets: map<string, Preset>
    var listeners: seq<Registry.ListenerId>
    var defaults: seq<string>
    ghost var notifications: seq<Registry.Notification>

    /** The object's state as a registry value. */
    ghost function State(): Registry.State
      reads this
    {
      Registry.State(presets, defaults, listeners)
    }

    ghost predicate Valid()
      reads this
    {
      Registry.Valid(State())
    }

    /** A fresh manager over the map the persistence layer loaded. */
    constructor (stored: map<string, Preset>)
      ensures Valid()
      ensures State() == Registry.Initial(stored)
      ensures notifications == []
    {
      presets := stored;
      listeners := [];
      defaults := [];
      notifications := [];
    }

    /** `get(name)`: the stored preset, or None when `name` is not a key. */
    method Get(name: string) returns (r: Option<Preset>)
      ensures r.Some? <==> name in presets
      ensures r.Some? ==> r.value == presets[name]
      ensures r == Registry.Lookup(State(), name)
    {
      r := if name in presets then Some(presets[name]) else None;
    }

    /** `set(obj)`. */
    method Set(p: Preset) returns (outcome: Registry.Outcome)
      requires Valid()
      modifies this
      ensures Valid()
      ensures var step := Registry.Set(old(State()), p);
              && outcome == step.outcome
              && State() == step.next
              && notifications == old(notifications) + step.notes
      ensures outcome.Failed? ==> unchanged(this)
    {
      if !HasName(p) {
        return Registry.Failed(Registry.MissingName);
      }
      var isDefault := IsDefault(Key(p));
      if isDefault {
        return Registry.Failed(Registry.ProtectedName(Key(p)));
      }
      presets := presets[Key(p) := p];
      Notify();
      outcome := Registry.Done;
    }

    /** `setDefault(obj)`: `set`, then append the name to the defaults. */
    method SetDefault(p: Preset) returns (outcome: Registry.Outcome)
      requires Valid()
      modifies this
      ensures Valid()
      ensures var step := Registry.SetDefault(old(State()), p);
              && outcome == step.outcome
              && State() == step.next
              && notifications == old(notifications) + step.notes
      ensures outcome.Failed? ==> unchanged(this)
    {
      outcome := Set(p);
      if outcome == Registry.Done {
        defaults := defaults + [Key(p)];
      }
    }

    /** `remove(name)`. */
    method Remove(name: string) returns (outcome: Registry.Outcome)
      requires Valid()
      modifies this
      ensures Valid()
      ensures var step := Registry.Remove(old(State()), name);
              && outcome == step.outcome
              && State() == step.next
              && notifications == old(notifications) + step.notes
      ensures outcome.Failed? ==> unchanged(this)
    {
      var isDefault := IsDefault(name);
      if isDefault {
        return Registry.Failed(Registry.ProtectedName(name));
      }
      presets := presets - {name};
      Notify();
      outcome := Registry.Done;
    }

    /** `getAll()`: the whole map; every default name is among its keys. */
    method GetAll() returns (r: map<string, Preset>)
      requires Valid()
      ensures r == presets
      ensures forall n :: n in defaults ==> n in r
    {
      r := presets;
    }

    /** `getDefaultNames()`: the default names in the order they were
        registered, each once, each a stored preset. */
    method GetDefaultNames() returns (r: seq<string>)
      requires Valid()
      ensures r == defaults
      ensures Registry.Distinct(r)
      ensures forall n :: n in r ==> n in presets
    {
      r := defaults;
    }

    /** `isDefault(name)`; a default name is always stored. */
    method IsDefault(name: string) returns (r: bool)
      requires Valid()
      ensures r <==> name in defaults
      ensures r ==> name in presets
    {
      r := name in defaults;
    }

    /** `onChange(listener)`: later broadcasts call it after all earlier ones. */
    method OnChange(l: Registry.ListenerId)
      requires Valid()
      modifies this
      ensures Valid()
      ensures State() == Registry.OnChange(old(State()), l)
      ensures notifications == old(notifications)
    {
      listeners := listeners + [l];
    }

    /** The `forEach` over the listeners: each is called once, in
        registration order, and is handed the registry as it now stands. */
    method Notify()
      modifies this`notifications
      ensures notifications == old(notifications) + Registry.Broadcast(listeners, presets, defaults)
    {
      var i := 0;
      while i < |listeners|
        invariant 0 <= i <= |listeners|
        invariant notifications == old(notifications) + Registry.Broadcast(listeners[..i], presets, defaults)
      {
        Registry.BroadcastSnoc(listeners[..i], listeners[i], presets, defaults);
        assert listeners[..i + 1] == listeners[..i] + [listeners[i]];
        notifications := notifications + [Registry.Notification(listeners[i], presets, defaults)];
        i := i + 1;
      }
      assert listeners[..i] == listeners;
    }
  }
}
