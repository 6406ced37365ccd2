/** Routing of inbound events: from a project name to the rooms to notify,
    in full and in reduced detail, and the secret that validates the event. */
module Routing {
  import opened Options

  /** The configuration of one project. */
  datatype RoomConfiguration = RoomConfiguration(
    rooms: seq<string>,
    simpleRooms: seq<string>,
    secret: Option<string>)

  /** What a project resolves to: the rooms to notify and the secret. */
  datatype RoomConfigurationRef = RoomConfigurationRef(
    rooms: seq<string>,
    simpleRooms: seq<string>,
    secret: string)

  /** The parts of the bot's configuration that routing reads: the global
      secret, the optional default room and the per-project configuration. */
  datatype Config = Config(
    secret: string,
    defaultRoomName: Option<string>,
    roomConfiguration: map<string, RoomConfiguration>)

  /** The configuration assembled at start-up. At least one of a default room
      and a project configuration must be supplied; a missing project
      configuration is an empty one. */
  function NewConfig(secret: string, defaultRoomName: Option<string>,
                     roomConfiguration: Option<map<string, RoomConfiguration>>): (c: Config)
    requires defaultRoomName.Some? || roomConfiguration.Some?
    ensures c.secret == secret && c.defaultRoomName == defaultRoomName
    ensures roomConfiguration.Some? ==> c.roomConfiguration == roomConfiguration.value
    ensures roomConfiguration.None? ==> c.roomConfiguration == map[]
  {
    Config(secret, defaultRoomName, roomConfiguration.GetOr(map[]))
  }

  /** The default room as a list of at most one room. */
  function DefaultRooms(c: Config): seq<string> {
    match c.defaultRoomName
    case Some(room) => [room]
    case None => []
  }

  /** Resolves a project name. A configured project gets its own lists, in
      their own order, and its own secret when it has one; any other name
      gets the default room, no simple rooms and the global secret. */
  function RoomsFor(c: Config, name: string): (r: RoomConfigurationRef)
    ensures name in c.roomConfiguration ==>
      && r.rooms == c.roomConfiguration[name].rooms
      && r.simpleRooms == c.roomConfiguration[name].simpleRooms
    ensures name in c.roomConfiguration && c.roomConfiguration[name].secret.Some? ==>
      r.secret == c.roomConfiguration[name].secret.value
    ensures name in c.roomConfiguration && c.roomConfiguration[name].secret.None? ==>
      r.secret == c.secret
    ensures name !in c.roomConfiguration ==>
      && r.rooms == (if c.defaultRoomName.Some? then [c.defaultRoomName.value] else [])
      && r.simpleRooms == []
      && r.secret == c.secret
  {
    if name in c.roomConfiguration then
      var RoomConfiguration(rooms, simpleRooms, secret) := c.roomConfiguration[name];
      RoomConfigurationRef(rooms, simpleRooms, secret.GetOr(c.secret))
    else
      RoomConfigurationRef(DefaultRooms(c), [], c.secret)
  }

  /** Every room a resolution names, full or reduced detail. */
  function Targets(r: RoomConfigurationRef): set<string> {
    set room | room in r.rooms + r.simpleRooms
  }

  /** The rooms the bot joins: those of every project, full and reduced
      detail, and the default room; duplicates collapse. */
  function AllRooms(c: Config): (all: set<string>)
    ensures forall name, room :: name in c.roomConfiguration && room in c.roomConfiguration[name].rooms ==> room in all
    ensures forall name, room :: name in c.roomConfiguration && room in c.roomConfiguration[name].simpleRooms ==> room in all
    ensures c.defaultRoomName.Some? ==> c.defaultRoomName.value in all
    ensures forall room :: room in all ==>
      || c.defaultRoomName == Some(room)
      || exists name :: name in c.roomConfiguration && room in c.roomConfiguration[name].rooms + c.roomConfiguration[name].simpleRooms
  {
    var m := c.roomConfiguration;
    assert forall name, room :: name in m && room in m[name].rooms ==> room in m[name].rooms + m[name].simpleRooms;
    assert forall name, room :: name in m && room in m[name].simpleRooms ==> room in m[name].rooms + m[name].simpleRooms;
    (set name, room | name in m && room in m[name].rooms + m[name].simpleRooms :: room)
      + set room | room in DefaultRooms(c)
  }

  /** Every room a project is routed to is a room the bot joins. */
  lemma TargetsAreJoined(c: Config, name: string)
    ensures Targets(RoomsFor(c, name)) <= AllRooms(c)
  {
  }

  /** A finite set of names always leaves some name out. */
  lemma UnconfiguredName(names: set<string>) returns (name: string)
    ensures name !in names
  {
    var n := LongerThanAll(names);
    name := seq(n, _ => 'x');
  }

  lemma LongerThanAll(names: set<string>) returns (n: nat)
    ensures forall s :: s in names ==> |s| < n
    decreases names
  {
    if names == {} {
      n := 0;
    } else {
      var s :| s in names;
      var m := LongerThanAll(names - {s});
      n := if m > |s| then m else |s| + 1;
    }
  }

  /** The rooms the bot joins are exactly the rooms some project name can be
      routed to: nothing is joined that no event can reach. */
  lemma AllRoomsAreReachable(c: Config, room: string)
    ensures room in AllRooms(c) <==> exists name :: room in Targets(RoomsFor(c, name))
  {
    if room in AllRooms(c) {
      if c.defaultRoomName == Some(room) && !exists name :: name in c.roomConfiguration && room in c.roomConfiguration[name].rooms + c.roomConfiguration[name].simpleRooms {
        var name := UnconfiguredName(c.roomConfiguration.Keys);
        assert room in Targets(RoomsFor(c, name));
      } else {
        var name :| name in c.roomConfiguration && room in c.roomConfiguration[name].rooms + c.roomConfiguration[name].simpleRooms;
        assert room in Targets(RoomsFor(c, name));
      }
    }
    if exists name :: room in Targets(RoomsFor(c, name)) {
      var name :| room in Targets(RoomsFor(c, name));
      TargetsAreJoined(c, name);
    }
  }

  /** A project's own secret wins whatever the global secret is. */
  lemma OverrideIgnoresGlobalSecret(c: Config, name: string, global: string)
    requires name in c.roomConfiguration && c.roomConfiguration[name].secret.Some?
    ensures RoomsFor(c.(secret := global), name).secret == c.roomConfiguration[name].secret.value
  {
  }

  /** A configured project is never routed to the default room: its
      resolution does not depend on the default room at all. */
  lemma ConfiguredIgnoresDefaultRoom(c: Config, name: string, defaultRoomName: Option<string>)
    requires name in c.roomConfiguration
    ensures RoomsFor(c.(defaultRoomName := defaultRoomName), name) == RoomsFor(c, name)
  {
  }

  /** A configured project with no rooms at all is silenced but still
      validated against its own secret. */
  lemma SilencedProjectKeepsSecret(c: Config, name: string, secret: string)
    requires name in c.roomConfiguration
    requires c.roomConfiguration[name] == RoomConfiguration([], [], Some(secret))
    ensures RoomsFor(c, name) == RoomConfigurationRef([], [], secret)
  {
  }

  /** Without a project configuration, every project goes to the default
      room, which is then the only room joined. */
  lemma DefaultRoomOnly(secret: string, room: string, name: string)
    ensures RoomsFor(NewConfig(secret, Some(room), None), name) == RoomConfigurationRef([room], [], secret)
    ensures AllRooms(NewConfig(secret, Some(room), None)) == {room}
  {
  }

  /** With one configured project: its name resolves to its rooms and
      secret, any other name to the default room and the global secret. */
  lemma ProjectScenario()
    ensures var c := Config("g", Some("lobby"), map["Proj" := RoomConfiguration(["a", "b"], [], Some("s1"))]);
      && RoomsFor(c, "Proj") == RoomConfigurationRef(["a", "b"], [], "s1")
      && RoomsFor(c, "Other") == RoomConfigurationRef(["lobby"], [], "g")
      && AllRooms(c) == {"a", "b", "lobby"}
  {
  }

  /** Overlapping projects contribute each room once. */
  lemma OverlappingProjectsScenario()
    ensures var c := Config("", None, map[
        "Project" := RoomConfiguration(["a", "b"], [], None),
        "AnotherProject" := RoomConfiguration(["b", "c"], [], None),
        "StupidProject" := RoomConfiguration([], ["d"], None)]);
      AllRooms(c) == {"a", "b", "c", "d"}
  {
    var c := Config("", None, map[
        "Project" := RoomConfiguration(["a", "b"], [], None),
        "AnotherProject" := RoomConfiguration(["b", "c"], [], None),
        "StupidProject" := RoomConfiguration([], ["d"], None)]);
    var m := c.roomConfiguration;
    assert "a" in m["Project"].rooms && "c" in m["AnotherProject"].rooms;
    assert "b" in m["Project"].rooms && "d" in m["StupidProject"].simpleRooms;
    forall room | room in AllRooms(c) ensures room in {"a", "b", "c", "d"} {
      var name :| name in m && room in m[name].rooms + m[name].simpleRooms;
      assert name == "Project" || name == "AnotherProject" || name == "StupidProject";
    }
  }
}
