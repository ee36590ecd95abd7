/** canonical and aliases_for of scripts/catalog_decisions.py: following repository aliases, with exact detection of
    cycles. */
module Aliases {
  import opened Wrappers
  import opened Json

  type AliasMap = map<string, string>

  /** The name after n hops; a name that is no alias stays where it is. */
  function Hop(name: string, aliases: AliasMap, n: nat): string {
    if n == 0 then name
    else
      var previous := Hop(name, aliases, n - 1);
      if previous in aliases then aliases[previous] else previous
  }

  ghost predicate Settles(name: string, aliases: AliasMap) {
    exists n: nat :: Hop(name, aliases, n) !in aliases
  }

  /** The first name on the way that is no alias, if there is one. */
  ghost function CanonicalOf(name: string, aliases: AliasMap): (r: Option<string>)
    ensures r.Some? <==> Settles(name, aliases)
    ensures r.Some? ==> r.value !in aliases && exists n: nat :: Hop(name, aliases, n) == r.value
  {
    if Settles(name, aliases) then
      var n: nat :| Hop(name, aliases, n) !in aliases;
      Some(Hop(name, aliases, n))
    else None
  }

  lemma {:induction false} SettledStays(name: string, aliases: AliasMap, m: nat, n: nat)
    requires m <= n && Hop(name, aliases, m) !in aliases
    ensures Hop(name, aliases, n) == Hop(name, aliases, m)
  {
    if m < n {
      SettledStays(name, aliases, m, n - 1);
    }
  }

  lemma CanonicalIsUnique(name: string, aliases: AliasMap, n: nat)
    requires Hop(name, aliases, n) !in aliases
    ensures CanonicalOf(name, aliases) == Some(Hop(name, aliases, n))
  {
    assert Settles(name, aliases);
    var c := CanonicalOf(name, aliases);
    assert c.Some? && c.value !in aliases;
    var m: nat :| Hop(name, aliases, m) == c.value;
    if m <= n {
      SettledStays(name, aliases, m, n);
    } else {
      SettledStays(name, aliases, n, m);
    }
  }

  /** Coming back to a name already passed means never arriving. */
  lemma {:induction false} ReturningNeverSettles(name: string, aliases: AliasMap, k: nat, n: nat, m: nat)
    requires k < n && Hop(name, aliases, k) == Hop(name, aliases, n)
    requires forall i | 0 <= i < n :: Hop(name, aliases, i) in aliases
    ensures Hop(name, aliases, m) in aliases
    ensures m >= k ==> exists j | k <= j < n :: Hop(name, aliases, m) == Hop(name, aliases, j)
    decreases m
  {
    if m > k {
      ReturningNeverSettles(name, aliases, k, n, m - 1);
      var j :| k <= j < n && Hop(name, aliases, m - 1) == Hop(name, aliases, j);
      assert Hop(name, aliases, m) == aliases[Hop(name, aliases, j)] == Hop(name, aliases, j + 1);
      if j + 1 == n {
        assert Hop(name, aliases, m) == Hop(name, aliases, k);
      }
    }
  }

  /** canonical(name, aliases): the settled name, or None for "repository alias cycle". */
  method Canonical(start: string, aliases: AliasMap) returns (r: Option<string>)
    ensures r == CanonicalOf(start, aliases)
  {
    var name, seen := start, {};
    ghost var n: nat := 0;
    while name in aliases
      invariant name == Hop(start, aliases, n)
      invariant forall i | 0 <= i < n :: Hop(start, aliases, i) in aliases
      invariant seen <= aliases.Keys && forall x :: x in seen <==> exists i | 0 <= i < n :: Hop(start, aliases, i) == x
      decreases aliases.Keys - seen
    {
      if name in seen {
        ghost var k :| 0 <= k < n && Hop(start, aliases, k) == name;
        forall m: nat ensures Hop(start, aliases, m) in aliases {
          ReturningNeverSettles(start, aliases, k, n, m);
        }
        return None;
      }
      seen := seen + {name};
      name := aliases[name];
      n := n + 1;
      assert Hop(start, aliases, n - 1) in seen;
    }
    CanonicalIsUnique(start, aliases, n);
    return Some(name);
  }

  /** A settled name is a fixpoint: it is its own canonical name. */
  lemma CanonicalIsFixpoint(name: string, aliases: AliasMap)
    requires CanonicalOf(name, aliases).Some?
    ensures CanonicalOf(CanonicalOf(name, aliases).value, aliases) == CanonicalOf(name, aliases)
  {
    var c := CanonicalOf(name, aliases).value;
    assert Hop(c, aliases, 0) == c;
    CanonicalIsUnique(c, aliases, 0);
  }

  lemma {:induction false} HopOnce(name: string, aliases: AliasMap, n: nat)
    requires name in aliases
    ensures Hop(name, aliases, n + 1) == Hop(aliases[name], aliases, n)
  {
    if n == 0 {
      assert Hop(name, aliases, 1) == aliases[Hop(name, aliases, 0)];
    } else {
      HopOnce(name, aliases, n - 1);
    }
  }

  /** An alias and its target have the same canonical name, or both run into a cycle. */
  lemma AliasSharesCanonical(name: string, aliases: AliasMap)
    requires name in aliases
    ensures CanonicalOf(name, aliases) == CanonicalOf(aliases[name], aliases)
  {
    if Settles(name, aliases) {
      var n: nat :| Hop(name, aliases, n) !in aliases;
      assert n > 0;
      HopOnce(name, aliases, n - 1);
      CanonicalIsUnique(name, aliases, n);
      CanonicalIsUnique(aliases[name], aliases, n - 1);
    }
    if Settles(aliases[name], aliases) {
      var n: nat :| Hop(aliases[name], aliases, n) !in aliases;
      HopOnce(name, aliases, n);
      assert Hop(name, aliases, n + 1) !in aliases;
    }
  }

  // ---------------------------------------------------------------- aliases_for

  /** identity(value): the owner/repository name, or None for a value it refuses. URL syntax is the caller's. */
  type Identify = Json -> Option<string>

  /** The alias map of coverage.json's entries; None when an entry is refused, given twice, or its own target. */
  function Gather(entries: seq<(string, Json)>, identify: Identify): Option<AliasMap> {
    if entries == [] then Some(map[])
    else
      var (key, value) := entries[|entries| - 1];
      match (Gather(entries[..|entries| - 1], identify), identify(Str(key)), identify(value))
      case (Some(m), Some(origin), Some(target)) =>
        if origin in m || origin == target then None else Some(m[origin := target])
      case _ => None
  }

  ghost predicate AllSettle(aliases: AliasMap) {
    forall name | name in aliases :: Settles(name, aliases)
  }

  ghost function AliasesOf(entries: seq<(string, Json)>, identify: Identify): Option<AliasMap> {
    var m := Gather(entries, identify);
    if m.Some? && AllSettle(m.value) then m else None
  }

  lemma {:induction false} GatherPrefix(entries: seq<(string, Json)>, n: nat, identify: Identify)
    requires n <= |entries| && Gather(entries, identify).Some?
    ensures Gather(entries[..n], identify).Some?
  {
    if n < |entries| {
      GatherPrefix(entries[..|entries| - 1], n, identify);
      assert entries[..|entries| - 1][..n] == entries[..n];
    } else {
      assert entries[..n] == entries;
    }
  }

  method AliasesFor(entries: seq<(string, Json)>, identify: Identify) returns (r: Option<AliasMap>)
    ensures r == AliasesOf(entries, identify)
  {
    var aliases: AliasMap := map[];
    for i := 0 to |entries|
      invariant Gather(entries[..i], identify) == Some(aliases)
    {
      assert entries[..i + 1][..i] == entries[..i];
      var origin, target := identify(Str(entries[i].0)), identify(entries[i].1);
      if origin.None? || target.None? || origin.value in aliases || origin == target {
        if Gather(entries, identify).Some? {
          GatherPrefix(entries, i + 1, identify);
        }
        return None;
      }
      aliases := aliases[origin.value := target.value];
    }
    assert entries[..|entries|] == entries;
    var left := aliases.Keys;
    while left != {}
      invariant left <= aliases.Keys
      invariant forall name | name in aliases.Keys - left :: Settles(name, aliases)
      decreases left
    {
      var name :| name in left;
      var c := Canonical(name, aliases);
      if c.None? {
        return None;
      }
      left := left - {name};
    }
    return Some(aliases);
  }
}
