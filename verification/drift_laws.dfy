/** What the drift count means: which files it counts, each how often, and when it is unknown. */
module DriftLaws {
  import opened Wrappers
  import opened Drift

  // ---------------------------------------------------------------- what is counted

  /** A definition the client would load and nothing here ships. */
  predicate Loaded(rules: Rules, name: string, node: Node, depth: nat) {
    && IsMarkdown(name) && !Shipped(rules, name, depth)
    && (node == Link(ToFile) || ((node.File? || node.Unreadable?) && !Vendor(rules, name, depth)))
  }

  /** The path leads through folders to such a definition. */
  ghost predicate LoadedAt(rules: Rules, entries: Entries, path: seq<string>, depth: nat)
    decreases path, 1
  {
    exists i :: 0 <= i < |entries| && LoadedThrough(rules, entries[i], path, depth)
  }

  ghost predicate LoadedThrough(rules: Rules, e: Entry, path: seq<string>, depth: nat)
    decreases path, 0
  {
    path != [] && e.name == path[0] &&
      if |path| == 1 then Loaded(rules, path[0], e.node, depth)
      else e.node.Folder? && LoadedAt(rules, e.node.entries, path[1..], depth + 1)
  }

  function LoadedIn(rules: Rules, name: string, node: Node, depth: nat): nat
    decreases node, 1
  {
    if node.Folder? then LoadedCount(rules, node.entries, depth + 1)
    else if Loaded(rules, name, node, depth) then 1 else 0
  }

  function LoadedCount(rules: Rules, entries: Entries, depth: nat): nat
    decreases entries, 0
  {
    if entries == [] then 0
    else
      var last := entries[|entries| - 1];
      LoadedCount(rules, entries[..|entries| - 1], depth) + LoadedIn(rules, last.name, last.node, depth)
  }

  /** A folder holds a name once. */
  ghost predicate Distinct(entries: Entries)
    decreases entries, 0
  {
    && (forall i, j | 0 <= i < j < |entries| :: entries[i].name != entries[j].name)
    && (forall i | 0 <= i < |entries| :: entries[i].node.Folder? ==> Distinct(entries[i].node.entries))
  }

  lemma {:induction false} Under(name: string, inner: set<seq<string>>) returns (r: set<seq<string>>)
    ensures forall p :: p in r <==> p != [] && p[0] == name && p[1..] in inner
    ensures |r| == |inner|
    decreases |inner|
  {
    if inner == {} {
      r := {};
    } else {
      var q :| q in inner;
      var rest := Under(name, inner - {q});
      r := rest + {[name] + q};
      assert ([name] + q)[1..] == q;
      assert [name] + q !in rest;
      forall p ensures p in r <==> p != [] && p[0] == name && p[1..] in inner {
        if p != [] && p[0] == name {
          assert p == [name] + p[1..];
        }
      }
    }
  }

  /** LoadedCount is the number of paths that lead to an unshipped definition. */
  lemma {:induction false} LoadedCountIsPaths(rules: Rules, entries: Entries, depth: nat)
    returns (paths: set<seq<string>>)
    requires Distinct(entries)
    ensures forall p :: p in paths <==> LoadedAt(rules, entries, p, depth)
    ensures |paths| == LoadedCount(rules, entries, depth)
    decreases entries, 0
  {
    if entries == [] {
      paths := {};
    } else {
      var init, last := entries[..|entries| - 1], entries[|entries| - 1];
      var before := LoadedCountIsPaths(rules, init, depth);
      var here := NodePaths(rules, last, depth);
      forall p ensures !(p in before && p in here) {
        if p in before && p in here {
          NamedInEntries(rules, init, p, depth);
        }
      }
      assert before !! here;
      paths := before + here;
      assert forall i | 0 <= i < |init| :: init[i] == entries[i];
    }
  }

  lemma NamedInEntries(rules: Rules, entries: Entries, p: seq<string>, depth: nat)
    requires LoadedAt(rules, entries, p, depth)
    ensures p != [] && exists i :: 0 <= i < |entries| && entries[i].name == p[0]
  {
    var i :| 0 <= i < |entries| && LoadedThrough(rules, entries[i], p, depth);
  }

  lemma {:induction false} NodePaths(rules: Rules, e: Entry, depth: nat) returns (paths: set<seq<string>>)
    requires e.node.Folder? ==> Distinct(e.node.entries)
    ensures forall p :: p in paths <==> LoadedThrough(rules, e, p, depth)
    ensures |paths| == LoadedIn(rules, e.name, e.node, depth)
    decreases e.node, 1
  {
    if e.node.Folder? {
      var inner := LoadedCountIsPaths(rules, e.node.entries, depth + 1);
      paths := Under(e.name, inner);
      forall p | p in paths ensures |p| > 1 {
        NamedInEntries(rules, e.node.entries, p[1..], depth + 1);
      }
    } else if Loaded(rules, e.name, e.node, depth) {
      paths := {[e.name]};
      assert forall p | p != [] && |p| == 1 && p[0] == e.name :: p == [e.name];
    } else {
      paths := {};
    }
  }

  // ---------------------------------------------------------------- the shipped definitions

  /** A byte-identical regular copy sits at the top. */
  predicate Identical(rules: Rules, e: Entry) {
    e.name in rules.expected && e.node == File(Some(rules.expected[e.name]))
  }

  predicate Copied(rules: Rules, e: Entry) {
    e.name in rules.expected && e.node.File?
  }

  function IdenticalIn(rules: Rules, entries: Entries): set<string> {
    if entries == [] then {}
    else
      IdenticalIn(rules, entries[..|entries| - 1])
      + if Identical(rules, entries[|entries| - 1]) then {entries[|entries| - 1].name} else {}
  }

  function CopiedIn(rules: Rules, entries: Entries): set<string> {
    if entries == [] then {}
    else
      CopiedIn(rules, entries[..|entries| - 1])
      + if Copied(rules, entries[|entries| - 1]) then {entries[|entries| - 1].name} else {}
  }

  function StaleIn(rules: Rules, entries: Entries): nat {
    if entries == [] then 0
    else
      var last := entries[|entries| - 1];
      StaleIn(rules, entries[..|entries| - 1]) + if Copied(rules, last) && !Identical(rules, last) then 1 else 0
  }

  /** The shipped definitions without an identical copy. */
  function Differing(rules: Rules, entries: Entries): set<string> {
    rules.expected.Keys - IdenticalIn(rules, entries)
  }

  lemma {:induction false} IdenticalHas(rules: Rules, entries: Entries, name: string)
    ensures name in IdenticalIn(rules, entries) <==>
      exists i :: 0 <= i < |entries| && entries[i].name == name && Identical(rules, entries[i])
  {
    if entries != [] {
      var init := entries[..|entries| - 1];
      IdenticalHas(rules, init, name);
      assert forall i | 0 <= i < |init| :: init[i] == entries[i];
    }
  }

  lemma {:induction false} CopiedIsNamed(rules: Rules, entries: Entries, name: string)
    requires name in CopiedIn(rules, entries)
    ensures name in rules.expected && exists i :: 0 <= i < |entries| && entries[i].name == name
  {
    var init := entries[..|entries| - 1];
    if name in CopiedIn(rules, init) {
      CopiedIsNamed(rules, init, name);
      assert forall i | 0 <= i < |init| :: init[i] == entries[i];
    }
  }

  lemma LastIsNotCopied(rules: Rules, entries: Entries)
    requires entries != [] && Distinct(entries)
    ensures entries[|entries| - 1].name !in CopiedIn(rules, entries[..|entries| - 1])
  {
    if entries[|entries| - 1].name in CopiedIn(rules, entries[..|entries| - 1]) {
      CopiedIsNamed(rules, entries[..|entries| - 1], entries[|entries| - 1].name);
    }
  }

  lemma {:induction false} CopiesAreShipped(rules: Rules, entries: Entries)
    ensures IdenticalIn(rules, entries) <= CopiedIn(rules, entries) <= rules.expected.Keys
  {
    if entries != [] {
      CopiesAreShipped(rules, entries[..|entries| - 1]);
    }
  }

  lemma {:induction false} CopiesAreIdenticalOrStale(rules: Rules, entries: Entries)
    requires Distinct(entries)
    ensures |CopiedIn(rules, entries)| == |IdenticalIn(rules, entries)| + StaleIn(rules, entries)
  {
    if entries != [] {
      var init, last := entries[..|entries| - 1], entries[|entries| - 1];
      CopiesAreIdenticalOrStale(rules, init);
      CopiesAreShipped(rules, init);
      LastIsNotCopied(rules, entries);
    }
  }

  lemma DifferingCounts(rules: Rules, entries: Entries)
    requires Distinct(entries)
    ensures |CopiedIn(rules, entries)| <= |rules.expected|
    ensures StaleIn(rules, entries) + |rules.expected| - |CopiedIn(rules, entries)| == |Differing(rules, entries)|
  {
    CopiesAreIdenticalOrStale(rules, entries);
    CopiesAreShipped(rules, entries);
    var keys, copied, same := rules.expected.Keys, CopiedIn(rules, entries), IdenticalIn(rules, entries);
    assert |keys| == |rules.expected|;
    assert keys == (keys - same) + same;
    assert keys == (keys - copied) + copied;
  }

  // ---------------------------------------------------------------- the walk's tally

  function VendorData(rules: Rules, entries: Entries): seq<string> {
    if entries == [] then []
    else
      var last := entries[|entries| - 1];
      VendorData(rules, entries[..|entries| - 1])
      + if last.node.File? && !Shipped(rules, last.name, 0) && Vendor(rules, last.name, 0)
        then [last.node.data.GetOr([])] else []
  }

  /** Below the top only unshipped definitions are counted. */
  lemma {:induction false} TallyBelow(rules: Rules, t: Tally, entries: Entries, depth: nat)
    requires depth > 0 && AllWalkable(rules, entries, depth)
    ensures AddAll(rules, t, entries, depth)
      == t.(drift := t.drift + LoadedCount(rules, entries, depth), seen := t.seen + SizeOf(entries))
    decreases entries, 0
  {
    if entries != [] {
      var init, last := entries[..|entries| - 1], entries[|entries| - 1];
      TallyBelow(rules, t, init, depth);
      var mid := AddAll(rules, t, init, depth);
      if last.node.Folder? {
        TallyBelow(rules, mid.(seen := mid.seen + 1), last.node.entries, depth + 1);
      }
    }
  }

  /** At the top the tally is the unshipped definitions anywhere, the stale copies, and what is set aside. */
  lemma {:induction false} TallyAtTop(rules: Rules, entries: Entries)
    requires AllWalkable(rules, entries, 0)
    ensures AddAll(rules, Tally(0, {}, 0, []), entries, 0)
      == Tally(LoadedCount(rules, entries, 0) + StaleIn(rules, entries), CopiedIn(rules, entries), SizeOf(entries),
               VendorData(rules, entries))
    decreases entries, 0
  {
    if entries != [] {
      var init, last := entries[..|entries| - 1], entries[|entries| - 1];
      TallyAtTop(rules, init);
      var mid := AddAll(rules, Tally(0, {}, 0, []), init, 0);
      if last.node.Folder? {
        TallyBelow(rules, mid.(seen := mid.seen + 1), last.node.entries, 1);
      }
    }
  }
}
