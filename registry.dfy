/** The preset registry as a state machine on values: its state (the preset
    map, the ordered list of protected default names, the ordered list of
    change listeners), one step function per mutating operation, and the
    properties those steps keep. The class in module Presets is proved to
    move exactly as these functions say. */
module Registry {
  import opened Schema

  /** A registered change listener, by identity. The same listener may be
      registered more than once and is then called once per registration. */
  type ListenerId = nat

  /** The two synchronous failures of a mutation. */
  datatype Error =
    | MissingName                 // `obj.name` absent or empty
    | ProtectedName(name: string) // overwrite or delete of a default name

  datatype Outcome = Done | Failed(error: Error)

  /** One listener call: the listener and the registry as it stands when it
      is called (listeners are handed the registry itself). */
  datatype Notification = Notification(listener: ListenerId, presets: map<string, Preset>, defaults: seq<string>)

  datatype State = State(presets: map<string, Preset>, defaults: seq<string>, listeners: seq<ListenerId>)

  /** The result of one mutation: whether it threw, the new state and the
      listener calls it made, in order. */
  datatype Step = Step(outcome: Outcome, next: State, notes: seq<Notification>)

  predicate Distinct(names: seq<string>)
  {
    forall i, j :: 0 <= i < j < |names| ==> names[i] != names[j]
  }

  /** The registry invariant: every default name is present in the map, and
      no default name is listed twice. */
  predicate Valid(s: State)
  {
    && (forall n :: n in s.defaults ==> n in s.presets)
    && Distinct(s.defaults)
  }

  /** The registry right after construction, over whatever map the
      persistence layer produced. */
  function Initial(stored: map<string, Preset>): (s: State)
    ensures Valid(s)
    ensures s.presets == stored && s.defaults == [] && s.listeners == []
  {
    State(stored, [], [])
  }

  /** `get(name)`: the stored preset, or None for a name that is not a key. */
  function Lookup(s: State, name: string): (r: Option<Preset>)
    ensures r.Some? <==> name in s.presets
    ensures r.Some? ==> r.value == s.presets[name]
  {
    if name in s.presets then Some(s.presets[name]) else None
  }

  /** `isDefault(name)`; in a valid registry a default name is always stored. */
  predicate IsDefault(s: State, name: string)
    ensures Valid(s) && IsDefault(s, name) ==> name in s.presets
  {
    name in s.defaults
  }

  /** `listeners.forEach(listener => listener(this))`: every listener once,
      in registration order, each seeing the same registry state. */
  function Broadcast(listeners: seq<ListenerId>, presets: map<string, Preset>, defaults: seq<string>): (notes: seq<Notification>)
    ensures |notes| == |listeners|
    ensures forall i :: 0 <= i < |listeners| ==>
              notes[i].listener == listeners[i] && notes[i].presets == presets && notes[i].defaults == defaults
  {
    if listeners == [] then []
    else [Notification(listeners[0], presets, defaults)] + Broadcast(listeners[1..], presets, defaults)
  }

  /** Broadcasting to one more listener appends exactly that listener's call. */
  lemma BroadcastSnoc(listeners: seq<ListenerId>, l: ListenerId, presets: map<string, Preset>, defaults: seq<string>)
    ensures Broadcast(listeners + [l], presets, defaults)
            == Broadcast(listeners, presets, defaults) + [Notification(l, presets, defaults)]
  {
  }

  /** `set(obj)`: reject an absent or empty name, then reject a default
      name; otherwise store `obj` under its name, overwriting any entry,
      and broadcast the updated registry. */
  function Set(s: State, p: Preset): (r: Step)
    ensures r.outcome == Done <==> HasName(p) && Key(p) !in s.defaults
    ensures !HasName(p) ==> r.outcome == Failed(MissingName)
    ensures HasName(p) && Key(p) in s.defaults ==> r.outcome == Failed(ProtectedName(Key(p)))
    ensures r.outcome.Failed? ==> r.next == s && r.notes == []
    ensures r.outcome == Done ==>
              && Lookup(r.next, Key(p)) == Some(p)
              && (forall n :: n != Key(p) ==> Lookup(r.next, n) == Lookup(s, n))
              && r.next.presets.Keys == s.presets.Keys + {Key(p)}
              && r.next.defaults == s.defaults
              && r.next.listeners == s.listeners
              && r.notes == Broadcast(s.listeners, r.next.presets, s.defaults)
    ensures Valid(s) ==> Valid(r.next)
  {
    if !HasName(p) then Step(Failed(MissingName), s, [])
    else if IsDefault(s, Key(p)) then Step(Failed(ProtectedName(Key(p))), s, [])
    else
      var next := s.(presets := s.presets[Key(p) := p]);
      Step(Done, next, Broadcast(next.listeners, next.presets, next.defaults))
  }

  /** `setDefault(obj)`: `set(obj)`, then append the name to the defaults.
      The broadcast happens inside `set`, before the append. */
  function SetDefault(s: State, p: Preset): (r: Step)
    ensures r.outcome == Done <==> HasName(p) && Key(p) !in s.defaults
    ensures r.outcome.Failed? ==> r.outcome == Set(s, p).outcome && r.next == s && r.notes == []
    ensures r.outcome == Done ==>
              && Lookup(r.next, Key(p)) == Some(p)
              && (forall n :: n != Key(p) ==> Lookup(r.next, n) == Lookup(s, n))
              && r.next.defaults == s.defaults + [Key(p)]
              && IsDefault(r.next, Key(p))
              && r.next.listeners == s.listeners
              && r.notes == Broadcast(s.listeners, r.next.presets, s.defaults)
    ensures Valid(s) ==> Valid(r.next)
  {
    var step := Set(s, p);
    if step.outcome.Failed? then step
    else
      var next := step.next.(defaults := step.next.defaults + [Key(p)]);
      assert Valid(s) ==> Valid(next) by {
        if Valid(s) {
          forall i, j | 0 <= i < j < |next.defaults| ensures next.defaults[i] != next.defaults[j] {
            if j == |s.defaults| {
              assert next.defaults[i] == s.defaults[i];
            }
          }
        }
      }
      Step(Done, next, step.notes)
  }

  /** `remove(name)`: reject a default name; otherwise delete the entry if
      there is one (an absent name is not an error) and broadcast. */
  function Remove(s: State, name: string): (r: Step)
    ensures r.outcome == Done <==> name !in s.defaults
    ensures r.outcome.Failed? ==> r.outcome == Failed(ProtectedName(name)) && r.next == s && r.notes == []
    ensures r.outcome == Done ==>
              && Lookup(r.next, name) == None
              && (forall n :: n != name ==> Lookup(r.next, n) == Lookup(s, n))
              && r.next.presets.Keys == s.presets.Keys - {name}
              && r.next.defaults == s.defaults
              && r.next.listeners == s.listeners
              && r.notes == Broadcast(s.listeners, r.next.presets, s.defaults)
    ensures Valid(s) ==> Valid(r.next)
  {
    if IsDefault(s, name) then Step(Failed(ProtectedName(name)), s, [])
    else
      var next := s.(presets := s.presets - {name});
      Step(Done, next, Broadcast(next.listeners, next.presets, next.defaults))
  }

  /** `onChange(listener)`: register a listener after all earlier ones. */
  function OnChange(s: State, l: ListenerId): (r: State)
    ensures r.listeners == s.listeners + [l] && r.listeners[|s.listeners|] == l
    ensures r.presets == s.presets && r.defaults == s.defaults
    ensures Valid(s) ==> Valid(r)
  {
    s.(listeners := s.listeners + [l])
  }

  /** Round trip: a preset stored by a successful `set` is what `get`
      returns for its name. */
  lemma SetThenGet(s: State, p: Preset)
    requires HasName(p) && !IsDefault(s, Key(p))
    ensures Set(s, p).outcome == Done && Lookup(Set(s, p).next, Key(p)) == Some(p)
  {
  }

  /** Removing a non-default name that is not stored succeeds, leaves the
      whole state as it was, and still calls every listener. */
  lemma RemoveAbsent(s: State, name: string)
    requires name !in s.presets && !IsDefault(s, name)
    ensures Remove(s, name).outcome == Done
    ensures Remove(s, name).next == s
    ensures Remove(s, name).notes == Broadcast(s.listeners, s.presets, s.defaults)
  {
  }

  /** A second `setDefault` for a name that is already a default throws the
      protected-name error and changes nothing, so the defaults list never
      gains a duplicate. */
  lemma SetDefaultTwiceFails(s: State, p: Preset, q: Preset)
    requires HasName(p) && !IsDefault(s, Key(p))
    requires q.name == p.name
    ensures var first := SetDefault(s, p);
            && first.outcome == Done
            && SetDefault(first.next, q).outcome == Failed(ProtectedName(Key(p)))
            && SetDefault(first.next, q).next == first.next
  {
  }

  /** Listeners run after the map is updated: during a successful `set`,
      each one finds the new preset stored. During a successful
      `setDefault`, they run before the append, so they find the preset
      stored but its name not yet a default. */
  lemma ListenersSeeUpdatedMap(s: State, p: Preset)
    requires HasName(p) && !IsDefault(s, Key(p))
    ensures forall note :: note in Set(s, p).notes ==>
              Key(p) in note.presets && note.presets[Key(p)] == p && note.defaults == s.defaults
    ensures forall note :: note in SetDefault(s, p).notes ==>
              Key(p) in note.presets && note.presets[Key(p)] == p && Key(p) !in note.defaults
  {
  }

  /** A listener registered last is called last by the next successful
      `set`, after every earlier listener. */
  lemma OnChangeThenSetCallsLast(s: State, l: ListenerId, p: Preset)
    requires HasName(p) && !IsDefault(s, Key(p))
    ensures var notes := Set(OnChange(s, l), p).notes;
            && |notes| == |s.listeners| + 1
            && notes[|s.listeners|].listener == l
            && (forall i :: 0 <= i < |s.listeners| ==> notes[i].listener == s.listeners[i])
  {
  }

  /** The mutating operations, as a caller issues them; reads change no
      state and are not operations here. */
  datatype Op =
    | SetOp(preset: Preset)
    | SetDefaultOp(preset: Preset)
    | RemoveOp(name: string)
    | OnChangeOp(listener: ListenerId)

  function Apply(s: State, op: Op): (r: Step)
    ensures Valid(s) ==> Valid(r.next)
    ensures s.defaults <= r.next.defaults
    ensures s.listeners <= r.next.listeners
    ensures forall n :: n in s.defaults ==> Lookup(r.next, n) == Lookup(s, n)
  {
    match op
    case SetOp(p) => Set(s, p)
    case SetDefaultOp(p) => SetDefault(s, p)
    case RemoveOp(name) => Remove(s, name)
    case OnChangeOp(l) => Step(Done, OnChange(s, l), [])
  }

  /** A run of operations: the final state and every listener call made, in
      order. A failed operation throws to its caller and the run goes on. */
  datatype Trace = Trace(final: State, notes: seq<Notification>)

  function Run(s: State, ops: seq<Op>): Trace
    decreases |ops|
  {
    if ops == [] then Trace(s, [])
    else
      var step := Apply(s, ops[0]);
      var rest := Run(step.next, ops[1..]);
      Trace(rest.final, step.notes + rest.notes)
  }

  /** Default protection over any run: the invariant holds throughout, the
      defaults list only grows at its end, listeners are never dropped, and
      the preset stored under a default name is never altered again. */
  lemma {:induction false} RunProtectsDefaults(s: State, ops: seq<Op>)
    requires Valid(s)
    ensures Valid(Run(s, ops).final)
    ensures s.defaults <= Run(s, ops).final.defaults
    ensures s.listeners <= Run(s, ops).final.listeners
    ensures forall n :: n in s.defaults ==> Lookup(Run(s, ops).final, n) == Lookup(s, n)
    decreases |ops|
  {
    if ops != [] {
      var step := Apply(s, ops[0]);
      RunProtectsDefaults(step.next, ops[1..]);
      var fin := Run(s, ops).final;
      assert fin == Run(step.next, ops[1..]).final;
      forall n | n in s.defaults ensures Lookup(fin, n) == Lookup(s, n) {
        assert s.defaults <= step.next.defaults;
        assert n in step.next.defaults;
      }
    }
  }

  /** Once `setDefault(p)` succeeds, every later run of operations leaves
      `get` returning exactly `p` for its name, and the name a default. */
  lemma {:induction false} SetDefaultIsPermanent(s: State, p: Preset, ops: seq<Op>)
    requires Valid(s)
    requires HasName(p) && !IsDefault(s, Key(p))
    ensures var fin := Run(s, [SetDefaultOp(p)] + ops).final;
            Lookup(fin, Key(p)) == Some(p) && IsDefault(fin, Key(p))
  {
    var all := [SetDefaultOp(p)] + ops;
    var step := Apply(s, all[0]);
    assert all[1..] == ops;
    assert step.next.defaults[|s.defaults|] == Key(p);
    RunProtectsDefaults(step.next, ops);
  }

  /** Names every plain JavaScript object inherits from Object.prototype
      whose values are functions. */
  const InheritedMethods: set<string> :=
    {"constructor", "hasOwnProperty", "isPrototypeOf", "propertyIsEnumerable",
     "toLocaleString", "toString", "valueOf",
     "__defineGetter__", "__defineSetter__", "__lookupGetter__", "__lookupSetter__"}

  /** The accessor every plain JavaScript object inherits; its value is
      Object.prototype itself, whose JSON copy is the empty object. */
  const ProtoKey: string := "__proto__"

  /** What `get(name)` returns or throws as written. */
  datatype GetResult = Returned(preset: Option<Preset>) | ReturnedEmptyObject | ThrewSyntaxError

  /** `get(name)` as written: the JavaScript `in` test also finds the
      inherited Object.prototype members of a plain object. For an inherited
      method, JSON.stringify of a function yields undefined and JSON.parse of
      undefined throws; for `"__proto__"` the JSON copy of Object.prototype
      is returned, an empty object instead of null. */
  function GetAsWritten(s: State, name: string): (r: GetResult)
    ensures r == ThrewSyntaxError <==> name !in s.presets && name in InheritedMethods
    ensures r == ReturnedEmptyObject <==> name !in s.presets && name == ProtoKey
    ensures r.Returned? ==> r.preset.Some? == (name in s.presets)
  {
    if name in s.presets then Returned(Some(s.presets[name]))
    else if name == ProtoKey then ReturnedEmptyObject
    else if name in InheritedMethods then ThrewSyntaxError
    else Returned(None)
  }

  /** On the empty registry, `get("toString")` throws instead of returning
      null, which is what `Lookup` returns. */
  lemma GetAsWrittenThrowsOnInheritedName()
    ensures GetAsWritten(Initial(map[]), "toString") == ThrewSyntaxError
    ensures Lookup(Initial(map[]), "toString") == None
  {
  }

  /** On the empty registry, `get("__proto__")` returns an empty object
      instead of null. */
  lemma GetAsWrittenReturnsPrototypeCopy()
    ensures GetAsWritten(Initial(map[]), ProtoKey) == ReturnedEmptyObject
    ensures Lookup(Initial(map[]), ProtoKey) == None
  {
  }

  /** Everywhere else the code as written and `Lookup` agree. */
  lemma GetAsWrittenAgrees(s: State, name: string)
    requires name in s.presets || (name !in InheritedMethods && name != ProtoKey)
    ensures GetAsWritten(s, name) == Returned(Lookup(s, name))
  {
  }
}
