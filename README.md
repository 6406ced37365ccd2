# PSDevBot routing and username aliases, modelled in Dafny

PSDevBot relays repository events into chat rooms. This project models the
two lookups at the heart of `src/config.rs`:

- **Routing** (`routing.dfy`, module `Routing`). A `Config` holds the global
  webhook secret, an optional default room and a map from project name to
  `RoomConfiguration { rooms, simpleRooms, secret? }`. `RoomsFor` resolves a
  project name: an exact match yields the project's own room lists and its
  secret override, falling back to the global secret; any other name yields
  the default room (if any), no simple rooms and the global secret.
  `AllRooms` is the set of rooms the bot joins. `NewConfig` is the start-up
  assembly, with the rule that a default room or a project configuration
  must be supplied as its precondition.
- **Username aliases** (`aliases.dfy`, module `Aliases`; `case_fold.dfy`,
  module `CaseFold`). The class `UsernameAliases` holds a map keyed by the
  case fold of the username. `Get` returns the stored canonical name, or the
  query itself on a miss; `Insert` overwrites whatever an earlier key with
  the same fold stored. `FromPairs` is the deserializer's loop that inserts
  the parsed entries one after another; `Build` is the same thing as a
  function over the sequence of entries, and the lemmas about `Lookup` on
  `Build` state last-write-wins and the miss behaviour.
- `options.dfy` (module `Options`) holds the `Option` type.

The fold is ASCII lower-casing (`CaseFold.Fold`), and it is shown to agree
with an independent, letter-by-letter definition of case-insensitive
equality (`CaseFold.FoldEqualIff`).

## Model

| member | source | states |
|---|---|---|
| `CaseFold.LowerChar` | src/config.rs:33 | the result is the same letter as the input up to ASCII case and is never an upper-case letter, which determines it |
| `CaseFold.Fold` | src/config.rs:33-38 | the fold keeps the length, lower-cases each position and leaves no upper-case ASCII letter |
| `CaseFold.FoldIdempotent` | src/config.rs:43 | a folded key is its own fold, so the table's keys are already in folded form |
| `CaseFold.FoldEqualIff` | src/config.rs:38 | two strings have equal folds exactly when they are equal letter by letter up to ASCII case (both directions) |
| `Aliases.Build` | src/config.rs:65-69 | inserting a sequence of entries gives a map whose keys are all folded and are exactly the folds of the inserted keys: one entry per folded key |
| `Aliases.LookupIgnoresCase` | src/config.rs:32-39 | two case-insensitively equal queries find the same entry; on a miss each comes back exactly as given |
| `Aliases.LookupAfterInsert` | src/config.rs:42-44 | after inserting a value under a key, every query that folds like the key finds that value |
| `Aliases.LookupOtherAfterInsert` | src/config.rs:42-44 | an insert leaves the lookup of every other folded key unchanged |
| `Aliases.BuildLastWins` | src/config.rs:65-69 | in a table built from a sequence of entries, a query finds the value of the last entry whose key folds like it |
| `Aliases.BuildMiss` | src/config.rs:39 | a query whose fold matches no inserted key comes back unchanged |
| `Aliases.SingleAliasScenario` | src/config.rs:32-44 | a table built from the single alias "Steve" answers every case-insensitively equal query with its canonical name and returns the unrelated "stevie" untouched |
| `Aliases.InsertThenGetExample` | src/config.rs:230-236 | inserting "A" then asking for "a" finds "Awesome"; "b" comes back as "b" |
| `Aliases.UsernameAliases.constructor` | src/config.rs:26-29 | the default table is empty |
| `Aliases.UsernameAliases.Get` | src/config.rs:32-40 | every inserted case variant of the query yields its stored name; with no matching fold the query itself is returned |
| `Aliases.UsernameAliases.Insert` | src/config.rs:42-44 | the new map is the old one with the fold of the key set to the value; keys stay folded |
| `Aliases.FromPairs` | src/config.rs:61-70 | the loop's table starts empty and ends equal to inserting the entries from first to last |
| `Routing.NewConfig` | src/config.rs:103-132 | needs a default room or a project configuration; an absent project configuration becomes the empty map |
| `Routing.RoomsFor` | src/config.rs:144-167 | a configured project gets its own rooms and simple rooms in order and its override secret, else the global secret; any other name gets the default room or nothing, no simple rooms and the global secret |
| `Routing.AllRooms` | src/config.rs:135-142 | every room and simple room of every project and the default room are joined, and nothing else is |
| `Routing.TargetsAreJoined` | src/config.rs:135-167 | every room a project name resolves to is among the joined rooms |
| `Routing.AllRoomsAreReachable` | src/config.rs:135-167 | a room is joined exactly when some project name resolves to it (both directions) |
| `Routing.OverrideIgnoresGlobalSecret` | src/config.rs:154 | a project's own secret is used whatever the global secret is |
| `Routing.ConfiguredIgnoresDefaultRoom` | src/config.rs:145-155 | a configured project's resolution does not depend on the default room |
| `Routing.SilencedProjectKeepsSecret` | src/config.rs:145-155 | a project with no rooms and an override secret notifies nobody and is still validated against its own secret |
| `Routing.DefaultRoomOnly` | src/config.rs:156-165 | with only a default room configured, every name goes to the default room with the global secret, and that room is the only one joined |
| `Routing.ProjectScenario` | src/config.rs:144-167 | one configured project resolves to its rooms and secret, another name to the default room and global secret, and the joined rooms are their union |
| `Routing.OverlappingProjectsScenario` | src/config.rs:198-228 | overlapping project room lists collapse to one set of joined rooms |

## Left out

- `Config::new` reads environment variables, parses the server URL and the port (with its default of 3030) and parses the JSON blobs; these are I/O and foreign parsing. Only the rule that a default room or a project configuration must be present is kept, as `NewConfig`'s precondition, and only the fields routing reads (`secret`, `default_room_name`, `room_configuration`) are in `Config`.
- `CaseFold.Fold`: UniCase's Unicode case folding for non-ASCII usernames is not modelled; the fold is ASCII lower-casing only.
- The hashbrown raw-entry probe (hash the query, then match by predicate) is a performance device; the model looks the fold of the query up in a map, which gives the same answers.
- On an overwrite the hash map keeps the casing of the first inserted key; that key is never read back through `get`, so the table stores keys in folded form.
- The serde deserializer machinery (`Deserializer`, `expecting`, errors from `next_entry`, `deny_unknown_fields`, the `#[serde(default)]` empty lists): `FromPairs` starts from the already parsed entries.
- The GitHub API client behind its lock, and the other `Config` fields (server, user, password, port), which routing does not read.
- Iteration order of the hash map and hash set: `AllRooms` is a set.
