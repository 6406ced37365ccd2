/** The case-insensitive username alias table: usernames from the chat
    transport, in whatever casing they arrive, mapped to one canonical
    display name. The table is keyed by the fold of the username, so there
    is at most one live entry per folded key. */
module Aliases {
  import opened Options
  import opened CaseFold

  /** The result of a lookup in a fold-keyed map: the value stored under the
      fold of `key` on a hit, or the query itself, unchanged, on a miss. */
  function Lookup(entries: map<string, string>, key: string): string {
    if Fold(key) in entries then entries[Fold(key)] else key
  }

  /** Every key of the map is a folded string. */
  ghost predicate FoldKeyed(entries: map<string, string>) {
    forall k :: k in entries ==> Fold(k) == k
  }

  /** The map obtained from the empty table by inserting `pairs` from first
      to last. */
  function Build(pairs: seq<(string, string)>): (entries: map<string, string>)
    ensures forall k :: k in entries ==> Fold(k) == k
    ensures entries.Keys == set i | 0 <= i < |pairs| :: Fold(pairs[i].0)
  {
    if pairs == [] then map[]
    else
      var (key, value) := pairs[|pairs| - 1];
      FoldIdempotent(key);
      Build(pairs[..|pairs| - 1])[Fold(key) := value]
  }

  /** A lookup depends on its query only through the query's fold, except
      that a miss hands back the query itself. */
  lemma LookupIgnoresCase(entries: map<string, string>, s: string, t: string)
    requires EqualIgnoringCase(s, t)
    ensures Fold(s) in entries ==> Lookup(entries, s) == Lookup(entries, t)
    ensures Fold(s) !in entries ==> Lookup(entries, s) == s && Lookup(entries, t) == t
  {
    FoldEqualIff(s, t);
  }

  /** After inserting `value` under `key`, every query that folds like `key`
      finds `value`. */
  lemma LookupAfterInsert(entries: map<string, string>, key: string, value: string, s: string)
    requires Fold(s) == Fold(key)
    ensures Lookup(entries[Fold(key) := value], s) == value
  {
  }

  /** Inserting under `key` leaves the lookup of every other fold as it was. */
  lemma LookupOtherAfterInsert(entries: map<string, string>, key: string, value: string, s: string)
    requires Fold(s) != Fold(key)
    ensures Lookup(entries[Fold(key) := value], s) == Lookup(entries, s)
  {
  }

  /** The entry a table built from `pairs` holds for the fold of `s` is the
      value of the last pair whose key folds like `s`: the last write wins. */
  lemma {:induction false} BuildLastWins(pairs: seq<(string, string)>, s: string, i: nat)
    requires i < |pairs| && Fold(pairs[i].0) == Fold(s)
    requires forall j :: i < j < |pairs| ==> Fold(pairs[j].0) != Fold(s)
    ensures Lookup(Build(pairs), s) == pairs[i].1
  {
    var n := |pairs| - 1;
    var prefix := pairs[..n];
    assert Build(pairs) == Build(prefix)[Fold(pairs[n].0) := pairs[n].1];
    if i < n {
      assert prefix[i] == pairs[i];
      forall j | i < j < n ensures Fold(prefix[j].0) != Fold(s) {
        assert prefix[j] == pairs[j];
      }
      BuildLastWins(prefix, s, i);
    }
  }

  /** A query none of whose fold was inserted comes back unchanged. */
  lemma BuildMiss(pairs: seq<(string, string)>, s: string)
    requires forall j :: 0 <= j < |pairs| ==> Fold(pairs[j].0) != Fold(s)
    ensures Lookup(Build(pairs), s) == s
  {
  }

  /** The alias table itself. `entries` plays the part of the hash map keyed
      by the case-insensitive form of the username. */
  class UsernameAliases {
    var entries: map<string, string>

    ghost predicate Valid()
      reads this
    {
      FoldKeyed(entries)
    }

    /** The empty table. */
    constructor ()
      ensures Valid() && entries == map[]
    {
      entries := map[];
    }

    /** The canonical name for `key`: the entry for its fold, or `key`
        itself when no case-insensitively equal username was inserted. */
    function Get(key: string): (r: string)
      reads this
      ensures forall s :: EqualIgnoringCase(s, key) && Fold(s) in entries ==> r == entries[Fold(s)]
      ensures Fold(key) !in entries ==> r == key
    {
      FoldEqualIffAll(key);
      Lookup(entries, key)
    }

    /** Stores `value` under the fold of `key`, replacing whatever an
        earlier key with the same fold stored. */
    method Insert(key: string, value: string)
      requires Valid()
      modifies this
      ensures Valid()
      ensures entries == old(entries)[Fold(key) := value]
    {
      FoldIdempotent(key);
      entries := entries[Fold(key) := value];
    }
  }

  lemma FoldEqualIffAll(key: string)
    ensures forall s :: EqualIgnoringCase(s, key) ==> Fold(s) == Fold(key)
  {
    forall s | EqualIgnoringCase(s, key) ensures Fold(s) == Fold(key) {
      FoldEqualIff(s, key);
    }
  }

  /** Builds a table from the entries of a parsed alias map, inserting them
      one after another in the order they arrive. */
  method FromPairs(pairs: seq<(string, string)>) returns (table: UsernameAliases)
    ensures fresh(table) && table.Valid()
    ensures table.entries == Build(pairs)
  {
    table := new UsernameAliases();
    var i := 0;
    while i < |pairs|
      invariant 0 <= i <= |pairs|
      invariant table.Valid()
      invariant table.entries == Build(pairs[..i])
    {
      var (key, value) := pairs[i];
      assert pairs[..i + 1][..i] == pairs[..i];
      table.Insert(key, value);
      i := i + 1;
    }
    assert pairs[..|pairs|] == pairs;
  }

  /** A table with one alias answers every casing of its username and hands
      back an unrelated username untouched. */
  lemma SingleAliasScenario(s: string)
    requires EqualIgnoringCase(s, "Steve")
    ensures Lookup(Build([("Steve", "Steve the Great")]), s) == "Steve the Great"
    ensures Lookup(Build([("Steve", "Steve the Great")]), "stevie") == "stevie"
  {
    var pairs := [("Steve", "Steve the Great")];
    FoldEqualIff(s, "Steve");
    BuildLastWins(pairs, s, 0);
    assert |Fold("stevie")| != |Fold("Steve")|;
    BuildMiss(pairs, "stevie");
  }

  /** The table used the way the bot's own unit test uses it: insert "A",
      then ask for "a" and for "b". */
  method InsertThenGetExample() returns (hit: string, miss: string)
    ensures hit == "Awesome" && miss == "b"
  {
    var aliases := new UsernameAliases();
    aliases.Insert("A", "Awesome");
    assert Fold("a") == Fold("A");
    hit := aliases.Get("a");
    assert Fold("b")[0] == 'b' && Fold("A")[0] == 'a';
    assert Fold("b") !in aliases.entries;
    miss := aliases.Get("b");
  }
}
