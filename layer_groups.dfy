/**
 * What the two Leaflet wrappers keep about a map: which named layer
 * groups are on it and which custom panes it has. Layer groups are known
 * by identity (a number handed out when `L.layerGroup()` creates one).
 */
module LayerGroups {
  import opened Text

  datatype MapState = MapState(attached: set<nat>, panes: map<string, int>)

  /** The map `L.cqkj.initMap` hands back: no layer groups, no custom panes. */
  const EmptyMap := MapState({}, map[])

  /** The pane name `_createPane` uses for a z-index. */
  function PaneName(zIndex: int): (name: string)
    ensures |name| > 14 && name[..14] == "customer-pane-"
  {
    "customer-pane-" + IntToString(zIndex)
  }

  /** Every custom pane carries the z-index its name was made from. */
  predicate PanesValid(m: MapState)
  {
    forall name :: name in m.panes ==> name == PaneName(m.panes[name])
  }

  /**
   * `_createPane`: return the pane for `zIndex`, creating it with that
   * z-index when the map does not have it yet.
   */
  function CreatePane(m: MapState, zIndex: int): (r: (MapState, string))
    requires PanesValid(m)
    ensures r.1 == PaneName(zIndex)
    ensures PanesValid(r.0)
    ensures r.1 in r.0.panes && r.0.panes[r.1] == zIndex
    ensures r.0.attached == m.attached
    ensures r.0.panes.Keys == m.panes.Keys + {r.1}
    ensures forall n :: n in m.panes ==> r.0.panes[n] == m.panes[n]
  {
    var pane := PaneName(zIndex);
    if pane in m.panes then
      PaneNameInjective(m.panes[pane], zIndex);
      (m, pane)
    else
      (m.(panes := m.panes[pane := zIndex]), pane)
  }

  lemma PaneNameInjective(a: int, b: int)
    requires PaneName(a) == PaneName(b)
    ensures a == b
  {
    var prefix := "customer-pane-";
    assert IntToString(a) == PaneName(a)[|prefix|..];
    assert IntToString(b) == PaneName(b)[|prefix|..];
    IntToStringInjective(a, b);
  }

  /** Creating the same pane twice changes nothing the second time. */
  lemma CreatePaneIdempotent(m: MapState, zIndex: int)
    requires PanesValid(m)
    ensures CreatePane(CreatePane(m, zIndex).0, zIndex) == CreatePane(m, zIndex)
  {
  }

  /** `hasLayer ? removeFrom : addTo`. */
  function Toggle(attached: set<nat>, group: nat): (r: set<nat>)
    ensures group in r <==> group !in attached
    ensures r - {group} == attached - {group}
  {
    if group in attached then attached - {group} else attached + {group}
  }

  /** Switching a layer group twice puts the map back as it was. */
  lemma ToggleTwice(attached: set<nat>, group: nat)
    ensures Toggle(Toggle(attached, group), group) == attached
  {
  }

  /**
   * The layer-management command: `type || 'NEW'`, then `toUpperCase()`.
   * It is never empty and holds no lower-case letter.
   */
  function Command(kind: string): (c: string)
    ensures |c| > 0
    ensures forall k :: 0 <= k < |c| ==> !('a' <= c[k] <= 'z')
    ensures kind == "" ==> c == "NEW"
    ensures kind != "" ==> |c| == |kind|
  {
    ToUpper(if kind == "" then "NEW" else kind)
  }

  /** A command names itself: passing it back as the type selects the same branch. */
  lemma CommandIdempotent(kind: string)
    ensures Command(Command(kind)) == Command(kind)
  {
    var c := Command(kind);
    assert forall k :: 0 <= k < |c| ==> UpperChar(c[k]) == c[k];
  }

  /** The type's letter case does not matter: `'add'` and `'ADD'` select the same branch. */
  lemma CommandIgnoresCase(kind: string)
    ensures Command(ToLower(kind)) == Command(kind)
  {
    if kind != "" {
      assert forall k :: 0 <= k < |kind| ==> UpperChar(LowerChar(kind[k])) == UpperChar(kind[k]);
    }
  }

  /** The seven commands `handleLayer` of `aliveIndex.js` knows. */
  const AliveCommands: set<string> := {"NEW", "ADD", "REMOVE", "GET", "SWITCH", "CLEAR", "CLEARALL"}

  /** What a `handleLayer` call returns. */
  datatype Returned =
    | Nothing            // `undefined`
    | NullValue          // `null`
    | Layer(group: nat)  // a layer group
    | Flag(b: bool)
}

/**
 * The per-map layer registry of `aliveIndex.js`: `C[mapName]` holds a
 * table of named layer groups (`Clayer`) and the Leaflet map (`app.map`).
 * The `...In` functions give each `layerUtil` call's result and the state
 * it leaves; the `Registry` class updates that state in place.
 */
module AliveMaps {
  import opened Wrappers
  import opened Text
  import opened LayerGroups

  datatype Session = Session(clayer: map<string, nat>, view: MapState)

  /** `C[mapName]` for every loaded map, the layers in each group, and the identity the next `L.layerGroup()` gets. */
  datatype World = World(sessions: map<string, Session>, members: map<nat, set<nat>>, nextGroup: nat)

  /**
   * A map's registered groups all exist and were handed out already, every
   * group on the map is a registered one, and its panes are well named.
   */
  predicate SessionValid(s: Session, members: map<nat, set<nat>>, nextGroup: nat)
  {
    (forall n :: n in s.clayer ==> s.clayer[n] < nextGroup && s.clayer[n] in members) &&
    s.view.attached <= s.clayer.Values &&
    PanesValid(s.view)
  }

  predicate WorldValid(w: World)
  {
    forall m :: m in w.sessions ==> SessionValid(w.sessions[m], w.members, w.nextGroup)
  }

  /** Creating more groups keeps every session valid. */
  lemma SessionValidGrows(s: Session, members: map<nat, set<nat>>, nextGroup: nat,
                          members': map<nat, set<nat>>, nextGroup': nat)
    requires SessionValid(s, members, nextGroup)
    requires members.Keys <= members'.Keys && nextGroup <= nextGroup'
    ensures SessionValid(s, members', nextGroup')
  {
  }

  /** Registering a fresh group under a new name keeps the session valid. */
  lemma RegisterKeepsValid(s: Session, name: string, members: map<nat, set<nat>>, nextGroup: nat)
    requires SessionValid(s, members, nextGroup) && name !in s.clayer
    ensures SessionValid(s.(clayer := s.clayer[name := nextGroup]), members[nextGroup := {}], nextGroup + 1)
  {
    var t := s.clayer[name := nextGroup];
    forall h | h in s.view.attached
      ensures h in t.Values
    {
      var n :| n in s.clayer && s.clayer[n] == h;
      assert t[n] == h;
    }
  }

  /** Putting a registered group on the map, or taking it off, keeps the session valid. */
  lemma AttachKeepsValid(s: Session, attached: set<nat>, members: map<nat, set<nat>>, nextGroup: nat)
    requires SessionValid(s, members, nextGroup)
    requires attached <= s.view.attached + s.clayer.Values
    ensures SessionValid(s.(view := s.view.(attached := attached)), members, nextGroup)
  {
  }

  /** The world with the groups on map `mapName` replaced by `attached`. */
  function WithAttached(w: World, mapName: string, attached: set<nat>): World
    requires mapName in w.sessions
  {
    w.(sessions := w.sessions[mapName := w.sessions[mapName].(view := w.sessions[mapName].view.(attached := attached))])
  }

  /** `layerUtil.create`: `C[mapName].Clayer[name]`, made by `L.layerGroup()` on first use. */
  function CreateIn(w: World, mapName: string, name: string): (r: (Result<nat>, World))
    ensures r.0.Throw? <==> mapName !in w.sessions
    ensures r.0.Throw? ==> r == (Throw(TypeError), w)
    ensures r.0.Ok? ==> mapName in r.1.sessions && name in r.1.sessions[mapName].clayer &&
                        r.1.sessions[mapName].clayer[name] == r.0.value
    ensures r.0.Ok? && name in w.sessions[mapName].clayer ==> r == (Ok(w.sessions[mapName].clayer[name]), w)
    ensures r.0.Ok? && name !in w.sessions[mapName].clayer ==>
              r.0.value == w.nextGroup &&
              r.1.members == w.members[w.nextGroup := {}] && r.1.nextGroup == w.nextGroup + 1 &&
              r.1.sessions.Keys == w.sessions.Keys &&
              r.1.sessions[mapName].clayer.Keys == w.sessions[mapName].clayer.Keys + {name} &&
              r.1.sessions[mapName].view == w.sessions[mapName].view &&
              (forall n :: n in w.sessions[mapName].clayer ==> r.1.sessions[mapName].clayer[n] == w.sessions[mapName].clayer[n]) &&
              (forall m :: m in w.sessions && m != mapName ==> r.1.sessions[m] == w.sessions[m])
  {
    if mapName !in w.sessions then (Throw(TypeError), w)
    else
      var s := w.sessions[mapName];
      if name in s.clayer then (Ok(s.clayer[name]), w)
      else
        (Ok(w.nextGroup), World(w.sessions[mapName := s.(clayer := s.clayer[name := w.nextGroup])],
                                w.members[w.nextGroup := {}], w.nextGroup + 1))
  }

  lemma CreateKeepsValid(w: World, mapName: string, name: string)
    requires WorldValid(w)
    ensures WorldValid(CreateIn(w, mapName, name).1)
  {
    var w' := CreateIn(w, mapName, name).1;
    if mapName in w.sessions && name !in w.sessions[mapName].clayer {
      forall m | m in w'.sessions
        ensures SessionValid(w'.sessions[m], w'.members, w'.nextGroup)
      {
        if m == mapName {
          RegisterKeepsValid(w.sessions[m], name, w.members, w.nextGroup);
        } else {
          SessionValidGrows(w.sessions[m], w.members, w.nextGroup, w'.members, w'.nextGroup);
        }
      }
    }
  }

  /** A group made for a new name is a new one: no map had it registered. */
  lemma CreateMakesNewGroup(w: World, mapName: string, name: string, other: string, n: string)
    requires WorldValid(w)
    requires mapName in w.sessions && name !in w.sessions[mapName].clayer
    requires other in w.sessions && n in w.sessions[other].clayer
    ensures CreateIn(w, mapName, name).0.value != w.sessions[other].clayer[n]
  {
    assert SessionValid(w.sessions[other], w.members, w.nextGroup);
  }

  /** Asking for the same name again returns the same group and changes nothing. */
  lemma CreateIdempotent(w: World, mapName: string, name: string)
    ensures var (g, w') := CreateIn(w, mapName, name);
            CreateIn(w', mapName, name) == (g, w')
  {
  }

  /** `layerUtil.add`: create the group, then put it on the map unless it is there already. */
  function AddIn(w: World, mapName: string, name: string): (r: (Result<nat>, World))
    ensures r.0 == CreateIn(w, mapName, name).0
    ensures r.0.Throw? ==> r.1 == w
    ensures r.0.Ok? ==>
              var w1 := CreateIn(w, mapName, name).1;
              r.1.members == w1.members && r.1.nextGroup == w1.nextGroup &&
              r.1.sessions.Keys == w.sessions.Keys &&
              r.1.sessions[mapName].clayer == w1.sessions[mapName].clayer &&
              r.1.sessions[mapName].view.attached == w.sessions[mapName].view.attached + {r.0.value} &&
              r.1.sessions[mapName].view.panes == w.sessions[mapName].view.panes &&
              (forall m :: m in w.sessions && m != mapName ==> r.1.sessions[m] == w.sessions[m])
  {
    var (g, w1) := CreateIn(w, mapName, name);
    if g.Throw? then (g, w1)
    else (g, WithAttached(w1, mapName, w1.sessions[mapName].view.attached + {g.value}))
  }

  lemma AddKeepsValid(w: World, mapName: string, name: string)
    requires WorldValid(w)
    ensures WorldValid(AddIn(w, mapName, name).1)
  {
    CreateKeepsValid(w, mapName, name);
    var (g, w1) := CreateIn(w, mapName, name);
    if g.Ok? {
      var s := w1.sessions[mapName];
      assert g.value in s.clayer.Values by {
        assert s.clayer[name] == g.value;
      }
      AttachKeepsValid(s, s.view.attached + {g.value}, w1.members, w1.nextGroup);
    }
  }

  /** Adding twice is adding once. */
  lemma AddIdempotent(w: World, mapName: string, name: string)
    ensures var (g, w') := AddIn(w, mapName, name);
            AddIn(w', mapName, name) == (g, w')
  {
    var (g, w') := AddIn(w, mapName, name);
    if g.Ok? {
      var s := w'.sessions[mapName];
      assert s.view.attached + {g.value} == s.view.attached;
      assert s.(view := s.view.(attached := s.view.attached)) == s;
      assert w'.sessions[mapName := s] == w'.sessions;
    }
  }

  /** `layerUtil.remove`: take a registered group off the map; `false` for an unregistered name. */
  function RemoveIn(w: World, mapName: string, name: string): (r: (Result<bool>, World))
    ensures mapName !in w.sessions ==> r == (Throw(TypeError), w)
    ensures mapName in w.sessions ==> r.0 == Ok(name in w.sessions[mapName].clayer)
    ensures r.0 == Ok(true) ==>
              r.1 == WithAttached(w, mapName, w.sessions[mapName].view.attached - {w.sessions[mapName].clayer[name]})
    ensures r.0 != Ok(true) ==> r.1 == w
  {
    if mapName !in w.sessions then (Throw(TypeError), w)
    else
      var s := w.sessions[mapName];
      if name !in s.clayer then (Ok(false), w)
      else (Ok(true), WithAttached(w, mapName, s.view.attached - {s.clayer[name]}))
  }

  lemma RemoveKeepsValid(w: World, mapName: string, name: string)
    requires WorldValid(w)
    ensures WorldValid(RemoveIn(w, mapName, name).1)
  {
    if mapName in w.sessions && name in w.sessions[mapName].clayer {
      var s := w.sessions[mapName];
      AttachKeepsValid(s, s.view.attached - {s.clayer[name]}, w.members, w.nextGroup);
    }
  }

  /** Removing what was just added leaves the group registered but off the map. */
  lemma RemoveUndoesAdd(w: World, mapName: string, name: string)
    requires mapName in w.sessions
    ensures var (g, w1) := AddIn(w, mapName, name);
            var (b, w2) := RemoveIn(w1, mapName, name);
            b == Ok(true) &&
            w2.sessions[mapName].clayer == w1.sessions[mapName].clayer &&
            w2.sessions[mapName].view.attached == w.sessions[mapName].view.attached - {g.value} &&
            w2.members == w1.members && w2.nextGroup == w1.nextGroup
  {
  }

  /** `layerUtil.switch`: toggle a registered group on the map; `false` for an unregistered name. */
  function SwitchIn(w: World, mapName: string, name: string): (r: (Result<bool>, World))
    ensures mapName !in w.sessions ==> r == (Throw(TypeError), w)
    ensures mapName in w.sessions ==> r.0 == Ok(name in w.sessions[mapName].clayer)
    ensures r.0 == Ok(true) ==>
              r.1 == WithAttached(w, mapName, Toggle(w.sessions[mapName].view.attached, w.sessions[mapName].clayer[name]))
    ensures r.0 != Ok(true) ==> r.1 == w
  {
    if mapName !in w.sessions then (Throw(TypeError), w)
    else
      var s := w.sessions[mapName];
      if name !in s.clayer then (Ok(false), w)
      else (Ok(true), WithAttached(w, mapName, Toggle(s.view.attached, s.clayer[name])))
  }

  lemma SwitchKeepsValid(w: World, mapName: string, name: string)
    requires WorldValid(w)
    ensures WorldValid(SwitchIn(w, mapName, name).1)
  {
    if mapName in w.sessions && name in w.sessions[mapName].clayer {
      var s := w.sessions[mapName];
      assert s.clayer[name] in s.clayer.Values;
      AttachKeepsValid(s, Toggle(s.view.attached, s.clayer[name]), w.members, w.nextGroup);
    }
  }

  /** Switching twice puts everything back. */
  lemma SwitchTwice(w: World, mapName: string, name: string)
    ensures var (b, w1) := SwitchIn(w, mapName, name);
            SwitchIn(w1, mapName, name) == (b, w)
  {
    var (b, w1) := SwitchIn(w, mapName, name);
    if b == Ok(true) {
      var s := w.sessions[mapName];
      var g := s.clayer[name];
      ToggleTwice(s.view.attached, g);
      var s1 := w1.sessions[mapName];
      assert s1 == s.(view := s.view.(attached := Toggle(s.view.attached, g)));
      assert s1.(view := s1.view.(attached := Toggle(s1.view.attached, g))) == s;
      assert w1.sessions[mapName := s] == w.sessions;
    }
  }

  /** `layerUtil.clear`: empty the named group; nothing happens for an unregistered name. */
  function ClearIn(w: World, mapName: string, name: string): (r: (Result<()>, World))
    ensures mapName !in w.sessions ==> r == (Throw(TypeError), w)
    ensures mapName in w.sessions ==> r.0 == Ok(()) && r.1.sessions == w.sessions && r.1.nextGroup == w.nextGroup
    ensures mapName in w.sessions && name in w.sessions[mapName].clayer ==>
              r.1.members == w.members[w.sessions[mapName].clayer[name] := {}]
    ensures mapName in w.sessions && name !in w.sessions[mapName].clayer ==> r.1 == w
  {
    if mapName !in w.sessions then (Throw(TypeError), w)
    else
      var s := w.sessions[mapName];
      if name in s.clayer then (Ok(()), w.(members := w.members[s.clayer[name] := {}]))
      else (Ok(()), w)
  }

  lemma ClearKeepsValid(w: World, mapName: string, name: string)
    requires WorldValid(w)
    ensures WorldValid(ClearIn(w, mapName, name).1)
  {
    var w' := ClearIn(w, mapName, name).1;
    forall m | m in w'.sessions
      ensures SessionValid(w'.sessions[m], w'.members, w'.nextGroup)
    {
      SessionValidGrows(w.sessions[m], w.members, w.nextGroup, w'.members, w'.nextGroup);
    }
  }

  /** `handleLayer(..., 'CLEARALL')`: every group registered for the map is emptied. */
  function ClearAllIn(w: World, mapName: string): (r: (Result<()>, World))
    ensures mapName !in w.sessions ==> r == (Throw(TypeError), w)
    ensures mapName in w.sessions ==>
              r.0 == Ok(()) && r.1.sessions == w.sessions && r.1.nextGroup == w.nextGroup &&
              r.1.members.Keys == w.members.Keys
    ensures mapName in w.sessions ==>
              forall g :: g in w.members ==>
                r.1.members[g] == if g in w.sessions[mapName].clayer.Values then {} else w.members[g]
  {
    if mapName !in w.sessions then (Throw(TypeError), w)
    else
      var table := w.sessions[mapName].clayer;
      (Ok(()), w.(members := map g | g in w.members :: if g in table.Values then {} else w.members[g]))
  }

  lemma ClearAllKeepsValid(w: World, mapName: string)
    requires WorldValid(w)
    ensures WorldValid(ClearAllIn(w, mapName).1)
  {
    var w' := ClearAllIn(w, mapName).1;
    forall m | m in w'.sessions
      ensures SessionValid(w'.sessions[m], w'.members, w'.nextGroup)
    {
      SessionValidGrows(w.sessions[m], w.members, w.nextGroup, w'.members, w'.nextGroup);
    }
  }

  /** After CLEARALL, clearing any registered name of that map changes nothing. */
  lemma ClearAfterClearAll(w: World, mapName: string, name: string)
    requires WorldValid(w)
    requires mapName in w.sessions && name in w.sessions[mapName].clayer
    ensures var w1 := ClearAllIn(w, mapName).1;
            ClearIn(w1, mapName, name) == (Ok(()), w1)
  {
    var w1 := ClearAllIn(w, mapName).1;
    var table := w.sessions[mapName].clayer;
    var g := table[name];
    assert g in w.members by {
      assert SessionValid(w.sessions[mapName], w.members, w.nextGroup);
    }
    assert g in table.Values;
    assert w1.members[g := {}] == w1.members;
  }

  /**
   * `C.handleLayer(mapName, identification, type)`: the command picks one
   * `layerUtil` call, whose result and state it passes on; REMOVE, CLEAR
   * and CLEARALL return `undefined`, and an unknown command does nothing.
   */
  function HandleIn(w: World, mapName: string, identification: string, kind: string): (r: (Result<Returned>, World))
    ensures Command(kind) !in AliveCommands ==> r == (Ok(Nothing), w)
    ensures Command(kind) in AliveCommands ==> (r.0.Throw? <==> mapName !in w.sessions)
    ensures r.0.Throw? ==> r == (Throw(TypeError), w)
    ensures Command(kind) == "NEW" ==> r.1 == CreateIn(w, mapName, identification).1
    ensures Command(kind) == "ADD" ==> r.1 == AddIn(w, mapName, identification).1
    ensures Command(kind) == "REMOVE" ==> r.1 == RemoveIn(w, mapName, identification).1
    ensures Command(kind) == "SWITCH" ==> r.1 == SwitchIn(w, mapName, identification).1
    ensures Command(kind) == "CLEAR" ==> r.1 == ClearIn(w, mapName, identification).1
    ensures Command(kind) == "CLEARALL" ==> r.1 == ClearAllIn(w, mapName).1
    ensures Command(kind) == "GET" ==> r.1 == w
    ensures r.0.Ok? && Command(kind) in {"NEW", "ADD"} ==>
              r.0.value == Layer(r.1.sessions[mapName].clayer[identification])
    ensures r.0.Ok? && Command(kind) == "GET" ==>
              r.0.value == if identification in w.sessions[mapName].clayer
                           then Layer(w.sessions[mapName].clayer[identification]) else Nothing
    ensures r.0.Ok? && Command(kind) == "SWITCH" ==> r.0.value == Flag(identification in w.sessions[mapName].clayer)
    ensures r.0.Ok? && Command(kind) in {"REMOVE", "CLEAR", "CLEARALL"} ==> r.0.value == Nothing
  {
    var command := Command(kind);
    if command == "NEW" then
      var (g, w1) := CreateIn(w, mapName, identification);
      (if g.Ok? then Ok(Layer(g.value)) else Throw(g.exception), w1)
    else if command == "ADD" then
      var (g, w1) := AddIn(w, mapName, identification);
      (if g.Ok? then Ok(Layer(g.value)) else Throw(g.exception), w1)
    else if command == "REMOVE" then
      var (b, w1) := RemoveIn(w, mapName, identification);
      (if b.Ok? then Ok(Nothing) else Throw(b.exception), w1)
    else if command == "GET" then
      if mapName !in w.sessions then (Throw(TypeError), w)
      else if identification in w.sessions[mapName].clayer then (Ok(Layer(w.sessions[mapName].clayer[identification])), w)
      else (Ok(Nothing), w)
    else if command == "SWITCH" then
      var (b, w1) := SwitchIn(w, mapName, identification);
      (if b.Ok? then Ok(Flag(b.value)) else Throw(b.exception), w1)
    else if command == "CLEAR" then
      var (u, w1) := ClearIn(w, mapName, identification);
      (if u.Ok? then Ok(Nothing) else Throw(u.exception), w1)
    else if command == "CLEARALL" then
      var (u, w1) := ClearAllIn(w, mapName);
      (if u.Ok? then Ok(Nothing) else Throw(u.exception), w1)
    else (Ok(Nothing), w)
  }

  lemma HandleKeepsValid(w: World, mapName: string, identification: string, kind: string)
    requires WorldValid(w)
    ensures WorldValid(HandleIn(w, mapName, identification, kind).1)
  {
    CreateKeepsValid(w, mapName, identification);
    AddKeepsValid(w, mapName, identification);
    RemoveKeepsValid(w, mapName, identification);
    SwitchKeepsValid(w, mapName, identification);
    ClearKeepsValid(w, mapName, identification);
    ClearAllKeepsValid(w, mapName);
  }

  /** `'get'` after `'new'` (in any letter case) finds the group `'new'` returned. */
  lemma HandleGetAfterNew(w: World, mapName: string, identification: string)
    requires mapName in w.sessions
    ensures var (g, w1) := HandleIn(w, mapName, identification, "new");
            HandleIn(w1, mapName, identification, "get") == (g, w1)
  {
    assert Command("new") == "NEW";
    assert Command("get") == "GET";
  }

  class Registry {
    /** `C[mapName]` for every map name that has been loaded. */
    var sessions: map<string, Session>
    /** The layers inside each layer group. */
    var members: map<nat, set<nat>>
    /** The identity the next `L.layerGroup()` gets. */
    var nextGroup: nat

    /** The registry as a value. */
    ghost function State(): World
      reads this
    {
      World(sessions, members, nextGroup)
    }

    ghost predicate Valid()
      reads this
    {
      WorldValid(State())
    }

    constructor ()
      ensures Valid() && State() == World(map[], map[], 0)
    {
      sessions := map[];
      members := map[];
      nextGroup := 0;
    }

    /** `C._autoLoad(mapName)` followed by the map creation in `init`. */
    method Init(mapName: string)
      requires Valid()
      modifies this
      ensures Valid()
      ensures sessions == old(sessions)[mapName := Session(map[], EmptyMap)]
      ensures members == old(members) && nextGroup == old(nextGroup)
    {
      sessions := sessions[mapName := Session(map[], EmptyMap)];
    }

    /** `layerUtil.create`. */
    method Create(mapName: string, name: string) returns (r: Result<nat>)
      requires Valid()
      modifies this
      ensures Valid()
      ensures (r, State()) == CreateIn(old(State()), mapName, name)
    {
      CreateKeepsValid(State(), mapName, name);
      if mapName !in sessions {
        return Throw(TypeError);
      }
      var s := sessions[mapName];
      if name in s.clayer {
        return Ok(s.clayer[name]);
      }
      var g := nextGroup;
      sessions := sessions[mapName := s.(clayer := s.clayer[name := g])];
      members := members[g := {}];
      nextGroup := nextGroup + 1;
      r := Ok(g);
    }

    /** `layerUtil.add`. */
    method Add(mapName: string, name: string) returns (r: Result<nat>)
      requires Valid()
      modifies this
      ensures Valid()
      ensures (r, State()) == AddIn(old(State()), mapName, name)
    {
      AddKeepsValid(State(), mapName, name);
      r := Create(mapName, name);
      if r.Ok? {
        var s := sessions[mapName];
        sessions := sessions[mapName := s.(view := s.view.(attached := s.view.attached + {r.value}))];
      }
    }

    /** `layerUtil.get`: the registered group, `undefined` when there is none. */
    method Get(mapName: string, name: string) returns (r: Result<Option<nat>>)
      ensures mapName !in sessions ==> r == Throw(TypeError)
      ensures mapName in sessions ==>
                r == Ok(if name in sessions[mapName].clayer then Some(sessions[mapName].clayer[name]) else None)
    {
      if mapName !in sessions {
        return Throw(TypeError);
      }
      var s := sessions[mapName];
      r := Ok(if name in s.clayer then Some(s.clayer[name]) else None);
    }

    /** `layerUtil.remove`. */
    method Remove(mapName: string, name: string) returns (r: Result<bool>)
      requires Valid()
      modifies this
      ensures Valid()
      ensures (r, State()) == RemoveIn(old(State()), mapName, name)
    {
      RemoveKeepsValid(State(), mapName, name);
      if mapName !in sessions {
        return Throw(TypeError);
      }
      var s := sessions[mapName];
      if name !in s.clayer {
        return Ok(false);
      }
      var g := s.clayer[name];
      sessions := sessions[mapName := s.(view := s.view.(attached := s.view.attached - {g}))];
      r := Ok(true);
    }

    /** `layerUtil.switch`. */
    method Switch(mapName: string, name: string) returns (r: Result<bool>)
      requires Valid()
      modifies this
      ensures Valid()
      ensures (r, State()) == SwitchIn(old(State()), mapName, name)
    {
      SwitchKeepsValid(State(), mapName, name);
      if mapName !in sessions {
        return Throw(TypeError);
      }
      var s := sessions[mapName];
      if name !in s.clayer {
        return Ok(false);
      }
      var g := s.clayer[name];
      sessions := sessions[mapName := s.(view := s.view.(attached := Toggle(s.view.attached, g)))];
      r := Ok(true);
    }

    /** `layerUtil.clear`. */
    method Clear(mapName: string, name: string) returns (r: Result<()>)
      requires Valid()
      modifies this
      ensures Valid()
      ensures (r, State()) == ClearIn(old(State()), mapName, name)
    {
      ClearKeepsValid(State(), mapName, name);
      if mapName !in sessions {
        return Throw(TypeError);
      }
      var s := sessions[mapName];
      if name in s.clayer {
        members := members[s.clayer[name] := {}];
      }
      r := Ok(());
    }

    /** The `for (const index in lay)` loop of `handleLayer(..., 'CLEARALL')`. */
    method ClearAll(mapName: string) returns (r: Result<()>)
      requires Valid()
      modifies this
      ensures Valid()
      ensures (r, State()) == ClearAllIn(old(State()), mapName)
    {
      if mapName !in sessions {
        ClearAllKeepsValid(State(), mapName);
        return Throw(TypeError);
      }
      var table := sessions[mapName].clayer;
      var pending := table.Keys;
      ghost var done: set<string> := {};
      while pending != {}
        invariant pending <= table.Keys && done == table.Keys - pending
        invariant sessions == old(sessions) && nextGroup == old(nextGroup)
        invariant members.Keys == old(members.Keys)
        invariant forall g :: g in members ==>
                    members[g] == if g in Image(table, done) then {} else old(members[g])
        decreases pending
      {
        var index :| index in pending;
        members := members[table[index] := {}];
        assert Image(table, done + {index}) == Image(table, done) + {table[index]};
        pending := pending - {index};
        done := done + {index};
      }
      assert Image(table, done) == table.Values;
      r := Ok(());
      ghost var target := ClearAllIn(old(State()), mapName).1;
      assert members.Keys == target.members.Keys;
      assert forall g :: g in members ==> members[g] == target.members[g];
      assert members == target.members;
      ClearAllKeepsValid(old(State()), mapName);
    }

    /** The groups registered under `keys`. */
    ghost function Image(table: map<string, nat>, keys: set<string>): set<nat>
      requires keys <= table.Keys
    {
      set n | n in keys :: table[n]
    }

    /** `C._createPane(mapName, zIndex)`. */
    method CreatePaneOn(mapName: string, zIndex: int) returns (r: Result<string>)
      requires Valid()
      modifies this
      ensures Valid()
      ensures mapName !in old(sessions) ==> r == Throw(TypeError) && sessions == old(sessions)
      ensures mapName in old(sessions) ==>
                var (view, pane) := CreatePane(old(sessions[mapName].view), zIndex);
                r == Ok(pane) && sessions == old(sessions)[mapName := old(sessions[mapName]).(view := view)]
      ensures members == old(members) && nextGroup == old(nextGroup)
    {
      if mapName !in sessions {
        return Throw(TypeError);
      }
      var s := sessions[mapName];
      var (view, pane) := CreatePane(s.view, zIndex);
      assert SessionValid(s.(view := view), members, nextGroup);
      sessions := sessions[mapName := s.(view := view)];
      r := Ok(pane);
    }

    /** `marker.addTo(targetLayer)` in `C._addMarker`: put a layer into a group. */
    method AddToGroup(group: nat, layer: nat)
      requires Valid()
      requires group in members
      modifies this
      ensures Valid()
      ensures members == old(members)[group := old(members[group]) + {layer}]
      ensures sessions == old(sessions) && nextGroup == old(nextGroup)
    {
      members := members[group := members[group] + {layer}];
    }

    /** `C.handleLayer(mapName, identification, type)`. */
    method HandleLayer(mapName: string, identification: string, kind: string) returns (r: Result<Returned>)
      requires Valid()
      modifies this
      ensures Valid()
      ensures (r, State()) == HandleIn(old(State()), mapName, identification, kind)
    {
      var command := Command(kind);
      if command == "NEW" {
        var g := Create(mapName, identification);
        r := if g.Ok? then Ok(Layer(g.value)) else Throw(g.exception);
      } else if command == "ADD" {
        var g := Add(mapName, identification);
        r := if g.Ok? then Ok(Layer(g.value)) else Throw(g.exception);
      } else if command == "REMOVE" {
        var b := Remove(mapName, identification);
        r := if b.Ok? then Ok(Nothing) else Throw(b.exception);
      } else if command == "GET" {
        var g := Get(mapName, identification);
        r := if g.Throw? then Throw(g.exception)
             else if g.value.Some? then Ok(Layer(g.value.value)) else Ok(Nothing);
      } else if command == "SWITCH" {
        var b := Switch(mapName, identification);
        r := if b.Ok? then Ok(Flag(b.value)) else Throw(b.exception);
      } else if command == "CLEAR" {
        var u := Clear(mapName, identification);
        r := if u.Ok? then Ok(Nothing) else Throw(u.exception);
      } else if command == "CLEARALL" {
        var u := ClearAll(mapName);
        r := if u.Ok? then Ok(Nothing) else Throw(u.exception);
      } else {
        r := Ok(Nothing);
      }
    }
  }
}

/**
 * The single-map layer registry of `index.js`: `C.Clayer` is created
 * lazily by `create` and `add` only, and `C.app` exists once `init` ran.
 */
module SingleMap {
  import opened Wrappers
  import opened Text
  import opened LayerGroups

  /** `C.Clayer` (`None` while `undefined`), `C.app.map` (`None` before `init`), the groups' layers and the next group identity. */
  datatype World = World(clayer: Option<map<string, nat>>, app: Option<MapState>, members: map<nat, set<nat>>, nextGroup: nat)

  /** The registered groups; none while `C.Clayer` is `undefined`. */
  function TableOf(clayer: Option<map<string, nat>>): map<string, nat>
  {
    if clayer.Some? then clayer.value else map[]
  }

  /** Registered groups exist and were handed out; the map shows registered groups only and its panes are well named. */
  predicate WorldValid(w: World)
  {
    (forall n :: n in TableOf(w.clayer) ==> TableOf(w.clayer)[n] < w.nextGroup && TableOf(w.clayer)[n] in w.members) &&
    (w.app.Some? ==> PanesValid(w.app.value) &&
                     forall g :: g in w.app.value.attached ==> g in TableOf(w.clayer).Values)
  }

  /** The commands `handleLayer` of `index.js` knows. */
  const SingleCommands: set<string> := {"NEW", "ADD", "REMOVE", "GET", "SWITCH"}

  /** `layerUtil.create`: never throws; creates `C.Clayer` and the group on first use. */
  function CreateIn(w: World, name: string): (r: (nat, World))
    ensures r.1.clayer.Some? && name in r.1.clayer.value && r.1.clayer.value[name] == r.0
    ensures TableOf(r.1.clayer).Keys == TableOf(w.clayer).Keys + {name}
    ensures forall n :: n in TableOf(w.clayer) ==> TableOf(r.1.clayer)[n] == TableOf(w.clayer)[n]
    ensures r.1.app == w.app
    ensures name in TableOf(w.clayer) ==> r.1.members == w.members && r.1.nextGroup == w.nextGroup
    ensures name !in TableOf(w.clayer) ==>
              r.0 == w.nextGroup && r.1.members == w.members[r.0 := {}] && r.1.nextGroup == w.nextGroup + 1
  {
    var t := TableOf(w.clayer);
    if name in t then (t[name], w.(clayer := Some(t)))
    else (w.nextGroup, w.(clayer := Some(t[name := w.nextGroup]), members := w.members[w.nextGroup := {}],
                          nextGroup := w.nextGroup + 1))
  }

  lemma CreateKeepsValid(w: World, name: string)
    requires WorldValid(w)
    ensures WorldValid(CreateIn(w, name).1)
  {
    var t := TableOf(w.clayer);
    var w' := CreateIn(w, name).1;
    var t' := TableOf(w'.clayer);
    assert t.Values <= t'.Values by {
      forall g | g in t.Values ensures g in t'.Values {
        var n :| n in t && t[n] == g;
        assert t'[n] == g;
      }
    }
    forall n | n in t' ensures t'[n] < w'.nextGroup && t'[n] in w'.members {
      if n != name {
        assert n in t;
      }
    }
  }

  /** A group made for a new name is a new one. */
  lemma CreateMakesNewGroup(w: World, name: string, n: string)
    requires WorldValid(w)
    requires name !in TableOf(w.clayer) && n in TableOf(w.clayer)
    ensures CreateIn(w, name).0 != TableOf(w.clayer)[n]
  {
  }

  /** Asking for the same name again returns the same group and changes nothing. */
  lemma CreateIdempotent(w: World, name: string)
    ensures var (g, w') := CreateIn(w, name);
            CreateIn(w', name) == (g, w')
  {
  }

  /**
   * `layerUtil.add`: create the group and put it on the map; returns
   * `true`. Before `init` the group is still created, then reading
   * `C.app.map` throws.
   */
  function AddIn(w: World, name: string): (r: (Result<bool>, World))
    ensures r.0.Throw? <==> w.app.None?
    ensures r.0.Throw? ==> r.0 == Throw(TypeError)
    ensures r.0.Ok? ==> r.0.value
    ensures var (g, w1) := CreateIn(w, name);
            r.1.clayer == w1.clayer && r.1.members == w1.members && r.1.nextGroup == w1.nextGroup &&
            r.1.app == if w.app.None? then None else Some(w.app.value.(attached := w.app.value.attached + {g}))
  {
    var (g, w1) := CreateIn(w, name);
    if w1.app.None? then (Throw(TypeError), w1)
    else (Ok(true), w1.(app := Some(w1.app.value.(attached := w1.app.value.attached + {g}))))
  }

  lemma AddKeepsValid(w: World, name: string)
    requires WorldValid(w)
    ensures WorldValid(AddIn(w, name).1)
  {
    CreateKeepsValid(w, name);
    var (g, w1) := CreateIn(w, name);
    assert g in TableOf(w1.clayer).Values by {
      assert TableOf(w1.clayer)[name] == g;
    }
  }

  /** Adding twice is adding once. */
  lemma AddIdempotent(w: World, name: string)
    ensures var (b, w') := AddIn(w, name);
            AddIn(w', name) == (b, w')
  {
    var (b, w') := AddIn(w, name);
    if w'.app.Some? {
      var g := TableOf(w'.clayer)[name];
      assert w'.app.value.attached + {g} == w'.app.value.attached;
      assert w'.app.value.(attached := w'.app.value.attached) == w'.app.value;
    }
  }

  /** `layerUtil.remove`: `C.Clayer` is read without being created first. */
  function RemoveIn(w: World, name: string): (r: (Result<bool>, World))
    ensures w.clayer.None? ==> r == (Throw(TypeError), w)
    ensures w.clayer.Some? && name !in w.clayer.value ==> r == (Ok(false), w)
    ensures w.clayer.Some? && name in w.clayer.value && w.app.None? ==> r == (Throw(TypeError), w)
    ensures w.clayer.Some? && name in w.clayer.value && w.app.Some? ==>
              r == (Ok(true), w.(app := Some(w.app.value.(attached := w.app.value.attached - {w.clayer.value[name]}))))
  {
    if w.clayer.None? then (Throw(TypeError), w)
    else if name !in w.clayer.value then (Ok(false), w)
    else if w.app.None? then (Throw(TypeError), w)
    else (Ok(true), w.(app := Some(w.app.value.(attached := w.app.value.attached - {w.clayer.value[name]}))))
  }

  lemma RemoveKeepsValid(w: World, name: string)
    requires WorldValid(w)
    ensures WorldValid(RemoveIn(w, name).1)
  {
  }

  /** After `init`, removing what was just added leaves the group registered but off the map. */
  lemma RemoveUndoesAdd(w: World, name: string)
    requires w.app.Some?
    ensures var (_, w1) := AddIn(w, name);
            var (b, w2) := RemoveIn(w1, name);
            var g := CreateIn(w, name).0;
            b == Ok(true) && w2.clayer == w1.clayer && w2.members == w1.members &&
            w2.app == Some(w.app.value.(attached := w.app.value.attached - {g}))
  {
    var g := CreateIn(w, name).0;
    var a := w.app.value.attached;
    assert (a + {g}) - {g} == a - {g};
  }

  /** `layerUtil.get`: the group, or `null` when none is registered. */
  function GetIn(w: World, name: string): (r: Result<Returned>)
    ensures r.Throw? <==> w.clayer.None?
    ensures r.Ok? ==> (r.value == NullValue <==> name !in w.clayer.value)
    ensures r.Ok? && name in w.clayer.value ==> r.value == Layer(w.clayer.value[name])
  {
    if w.clayer.None? then Throw(TypeError)
    else if name in w.clayer.value then Ok(Layer(w.clayer.value[name]))
    else Ok(NullValue)
  }

  /** `layerUtil.switch`: toggle a registered group on the map; `false` for an unregistered name. */
  function SwitchIn(w: World, name: string): (r: (Result<bool>, World))
    ensures w.clayer.None? ==> r == (Throw(TypeError), w)
    ensures w.clayer.Some? && name !in w.clayer.value ==> r == (Ok(false), w)
    ensures w.clayer.Some? && name in w.clayer.value && w.app.None? ==> r == (Throw(TypeError), w)
    ensures w.clayer.Some? && name in w.clayer.value && w.app.Some? ==>
              r == (Ok(true), w.(app := Some(w.app.value.(attached := Toggle(w.app.value.attached, w.clayer.value[name])))))
  {
    if w.clayer.None? then (Throw(TypeError), w)
    else if name !in w.clayer.value then (Ok(false), w)
    else if w.app.None? then (Throw(TypeError), w)
    else (Ok(true), w.(app := Some(w.app.value.(attached := Toggle(w.app.value.attached, w.clayer.value[name])))))
  }

  lemma SwitchKeepsValid(w: World, name: string)
    requires WorldValid(w)
    ensures WorldValid(SwitchIn(w, name).1)
  {
    if w.clayer.Some? && name in w.clayer.value {
      assert w.clayer.value[name] in TableOf(w.clayer).Values;
    }
  }

  /** Switching twice puts everything back. */
  lemma SwitchTwice(w: World, name: string)
    ensures var (b, w1) := SwitchIn(w, name);
            SwitchIn(w1, name) == (b, w)
  {
    var (b, w1) := SwitchIn(w, name);
    if b == Ok(true) {
      ToggleTwice(w.app.value.attached, w.clayer.value[name]);
      assert w.app.value.(attached := w.app.value.attached) == w.app.value;
    }
  }

  /**
   * `C.handleLayer(identification, type)`: only GET and SWITCH return
   * their result; NEW, ADD and REMOVE log it and return `undefined`, and
   * any other command (such as `'clear'`) does nothing.
   */
  function HandleIn(w: World, identification: string, kind: string): (r: (Result<Returned>, World))
    ensures Command(kind) !in SingleCommands ==> r == (Ok(Nothing), w)
    ensures Command(kind) == "NEW" ==> r == (Ok(Nothing), CreateIn(w, identification).1)
    ensures Command(kind) == "ADD" ==> r.1 == AddIn(w, identification).1 && (r.0.Ok? <==> w.app.Some?)
    ensures Command(kind) == "REMOVE" ==> r.1 == RemoveIn(w, identification).1 && r.0.Ok? == RemoveIn(w, identification).0.Ok?
    ensures Command(kind) == "SWITCH" ==> r.1 == SwitchIn(w, identification).1
    ensures Command(kind) == "SWITCH" && r.0.Ok? ==> r.0.value == Flag(identification in TableOf(w.clayer))
    ensures Command(kind) == "GET" ==> r == (GetIn(w, identification), w)
    ensures Command(kind) in {"NEW", "ADD", "REMOVE"} && r.0.Ok? ==> r.0.value == Nothing
    ensures r.0.Throw? ==> r.0 == Throw(TypeError)
  {
    var command := Command(kind);
    if command == "NEW" then
      (Ok(Nothing), CreateIn(w, identification).1)
    else if command == "ADD" then
      var (b, w1) := AddIn(w, identification);
      (if b.Ok? then Ok(Nothing) else Throw(b.exception), w1)
    else if command == "REMOVE" then
      var (b, w1) := RemoveIn(w, identification);
      (if b.Ok? then Ok(Nothing) else Throw(b.exception), w1)
    else if command == "GET" then
      (GetIn(w, identification), w)
    else if command == "SWITCH" then
      var (b, w1) := SwitchIn(w, identification);
      (if b.Ok? then Ok(Flag(b.value)) else Throw(b.exception), w1)
    else (Ok(Nothing), w)
  }

  lemma HandleKeepsValid(w: World, identification: string, kind: string)
    requires WorldValid(w)
    ensures WorldValid(HandleIn(w, identification, kind).1)
  {
    CreateKeepsValid(w, identification);
    AddKeepsValid(w, identification);
    RemoveKeepsValid(w, identification);
    SwitchKeepsValid(w, identification);
  }

  /** `'get'` after `'new'` finds the group, though `'new'` itself returned nothing. */
  lemma HandleGetAfterNew(w: World, identification: string)
    ensures var (r, w1) := HandleIn(w, identification, "new");
            r == Ok(Nothing) &&
            HandleIn(w1, identification, "get").0 == Ok(Layer(CreateIn(w, identification).0))
  {
    assert Command("new") == "NEW";
    assert Command("get") == "GET";
  }

  class Registry {
    /** `C.Clayer`, `None` while it is still `undefined`. */
    var clayer: Option<map<string, nat>>
    /** `C.app.map`, `None` before `init`. */
    var app: Option<MapState>
    var members: map<nat, set<nat>>
    var nextGroup: nat

    /** The registry as a value. */
    ghost function State(): World
      reads this
    {
      World(clayer, app, members, nextGroup)
    }

    ghost predicate Valid()
      reads this
    {
      WorldValid(State())
    }

    constructor ()
      ensures Valid() && State() == World(None, None, map[], 0)
    {
      clayer := None;
      app := None;
      members := map[];
      nextGroup := 0;
    }

    /** `init`: a new map replaces `C.app`; registered groups are kept but not on it. */
    method Init()
      requires Valid()
      modifies this
      ensures Valid()
      ensures app == Some(EmptyMap)
      ensures clayer == old(clayer) && members == old(members) && nextGroup == old(nextGroup)
    {
      app := Some(EmptyMap);
    }

    /** `layerUtil.create`. */
    method Create(name: string) returns (group: nat)
      requires Valid()
      modifies this
      ensures Valid()
      ensures (group, State()) == CreateIn(old(State()), name)
    {
      CreateKeepsValid(State(), name);
      if clayer.None? {
        clayer := Some(map[]);
      }
      if name in clayer.value {
        return clayer.value[name];
      }
      group := nextGroup;
      clayer := Some(clayer.value[name := group]);
      members := members[group := {}];
      nextGroup := nextGroup + 1;
    }

    /** `layerUtil.add`. */
    method Add(name: string) returns (r: Result<bool>)
      requires Valid()
      modifies this
      ensures Valid()
      ensures (r, State()) == AddIn(old(State()), name)
    {
      AddKeepsValid(State(), name);
      var group := Create(name);
      if app.None? {
        return Throw(TypeError);
      }
      app := Some(app.value.(attached := app.value.attached + {group}));
      r := Ok(true);
    }

    /** `layerUtil.remove`. */
    method Remove(name: string) returns (r: Result<bool>)
      requires Valid()
      modifies this
      ensures Valid()
      ensures (r, State()) == RemoveIn(old(State()), name)
    {
      RemoveKeepsValid(State(), name);
      if clayer.None? {
        return Throw(TypeError);
      }
      if name !in clayer.value {
        return Ok(false);
      }
      if app.None? {
        return Throw(TypeError);
      }
      app := Some(app.value.(attached := app.value.attached - {clayer.value[name]}));
      r := Ok(true);
    }

    /** `layerUtil.get`. */
    method Get(name: string) returns (r: Result<Returned>)
      ensures r == GetIn(State(), name)
    {
      if clayer.None? {
        return Throw(TypeError);
      }
      r := Ok(if name in clayer.value then Layer(clayer.value[name]) else NullValue);
    }

    /** `layerUtil.switch`. */
    method Switch(name: string) returns (r: Result<bool>)
      requires Valid()
      modifies this
      ensures Valid()
      ensures (r, State()) == SwitchIn(old(State()), name)
    {
      SwitchKeepsValid(State(), name);
      if clayer.None? {
        return Throw(TypeError);
      }
      if name !in clayer.value {
        return Ok(false);
      }
      if app.None? {
        return Throw(TypeError);
      }
      var g := clayer.value[name];
      app := Some(app.value.(attached := Toggle(app.value.attached, g)));
      r := Ok(true);
    }

    /** `C._createPane(zIndex)`. */
    method CreatePaneOn(zIndex: int) returns (r: Result<string>)
      requires Valid()
      modifies this
      ensures Valid()
      ensures old(app).None? ==> r == Throw(TypeError) && app == None
      ensures old(app).Some? ==>
                var (view, pane) := CreatePane(old(app.value), zIndex);
                r == Ok(pane) && app == Some(view)
      ensures clayer == old(clayer) && members == old(members) && nextGroup == old(nextGroup)
    {
      if app.None? {
        return Throw(TypeError);
      }
      var (view, pane) := CreatePane(app.value, zIndex);
      app := Some(view);
      r := Ok(pane);
    }

    /** `C.handleLayer(identification, type)`. */
    method HandleLayer(identification: string, kind: string) returns (r: Result<Returned>)
      requires Valid()
      modifies this
      ensures Valid()
      ensures (r, State()) == HandleIn(old(State()), identification, kind)
    {
      var command := Command(kind);
      if command == "NEW" {
        var _ := Create(identification);
        r := Ok(Nothing);
      } else if command == "ADD" {
        var b := Add(identification);
        r := if b.Ok? then Ok(Nothing) else Throw(b.exception);
      } else if command == "REMOVE" {
        var b := Remove(identification);
        r := if b.Ok? then Ok(Nothing) else Throw(b.exception);
      } else if command == "GET" {
        r := Get(identification);
      } else if command == "SWITCH" {
        var b := Switch(identification);
        r := if b.Ok? then Ok(Flag(b.value)) else Throw(b.exception);
      } else {
        r := Ok(Nothing);
      }
    }
  }
}
