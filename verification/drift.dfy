/** agent_drift_below and stack_agents_drift of scripts/adoption_status.py: one recursive walk that counts how the
    installed agent definitions differ from the shipped ones, or finds that it cannot tell. */
module Drift {
  import opened Wrappers

  // ---------------------------------------------------------------- the tree

  datatype Target = ToFolder | ToFile | ToNothing

  datatype Entry = Entry(name: string, node: Node)

  /** What open_below, fstat and the reads that follow find at an entry. File(None) cannot be read or is over the limit;
      Unlistable is an open folder that listdir refuses; Special is a socket, a pipe or a device; Vanished is gone
      before it was opened, or a folder that cannot be searched. */
  datatype Node =
    | File(data: Option<string>)
    | Folder(entries: seq<Entry>)
    | Unlistable
    | Link(target: Target)
    | Special
    | Unreadable
    | Vanished

  type Entries = seq<Entry>

  /** expected maps the name of each shipped definition to its bytes. */
  datatype Rules = Rules(expected: map<string, string>, vendors: set<string>, maxDepth: nat, maxEntries: nat)

  predicate IsMarkdown(name: string) {
    |name| >= 3 && name[|name| - 3..] == ".md"
  }

  predicate Shipped(rules: Rules, name: string, depth: nat) {
    depth == 0 && name in rules.expected
  }

  predicate Vendor(rules: Rules, name: string, depth: nat) {
    depth == 0 && name in rules.vendors
  }

  // ---------------------------------------------------------------- the walk as a fold

  datatype Tally = Tally(drift: nat, present: set<string>, seen: nat, vendors: seq<string>)

  function Bump(t: Tally, one: bool): Tally {
    t.(drift := t.drift + if one then 1 else 0)
  }

  function AddNode(rules: Rules, t: Tally, name: string, node: Node, depth: nat): Tally
    decreases node, 1
  {
    var t := t.(seen := t.seen + 1);
    match node
    case Link(target) => Bump(t, IsMarkdown(name) && target == ToFile && !Shipped(rules, name, depth))
    case Unreadable => Bump(t, IsMarkdown(name) && !Vendor(rules, name, depth))
    case Folder(entries) => AddAll(rules, t, entries, depth + 1)
    case File(data) =>
      if Shipped(rules, name, depth) then
        Bump(t.(present := t.present + {name}), data != Some(rules.expected[name]))
      else if Vendor(rules, name, depth) then t.(vendors := t.vendors + [data.GetOr([])])
      else Bump(t, IsMarkdown(name))
    case _ => t
  }

  function AddAll(rules: Rules, t: Tally, entries: Entries, depth: nat): Tally
    decreases entries, 0
  {
    if entries == [] then t
    else
      var last := entries[|entries| - 1];
      AddNode(rules, AddAll(rules, t, entries[..|entries| - 1], depth), last.name, last.node, depth)
  }

  /** No entry stops the walk. */
  predicate Walkable(rules: Rules, name: string, node: Node, depth: nat)
    decreases node, 1
  {
    match node
    case Vanished => false
    case Link(target) => target != ToFolder
    case Special => true
    case Unreadable => !Shipped(rules, name, depth)
    case Folder(entries) => depth < rules.maxDepth && AllWalkable(rules, entries, depth + 1)
    case Unlistable => false
    case File(data) => data.Some? || !(Shipped(rules, name, depth) || Vendor(rules, name, depth))
  }

  predicate AllWalkable(rules: Rules, entries: Entries, depth: nat)
    decreases entries, 0
  {
    entries == []
    || (AllWalkable(rules, entries[..|entries| - 1], depth)
        && Walkable(rules, entries[|entries| - 1].name, entries[|entries| - 1].node, depth))
  }

  function Size(node: Node): nat
    decreases node, 1
  {
    1 + if node.Folder? then SizeOf(node.entries) else 0
  }

  function SizeOf(entries: Entries): nat
    decreases entries, 0
  {
    if entries == [] then 0 else SizeOf(entries[..|entries| - 1]) + Size(entries[|entries| - 1].node)
  }

  lemma {:induction false} PrefixIsWalkable(rules: Rules, entries: Entries, n: nat, depth: nat)
    requires n <= |entries| && AllWalkable(rules, entries, depth)
    ensures AllWalkable(rules, entries[..n], depth)
  {
    if n < |entries| {
      PrefixIsWalkable(rules, entries[..|entries| - 1], n, depth);
      assert entries[..|entries| - 1][..n] == entries[..n];
    } else {
      assert entries[..n] == entries;
    }
  }

  lemma {:induction false} PrefixIsSmaller(entries: Entries, n: nat)
    requires n <= |entries|
    ensures SizeOf(entries[..n]) <= SizeOf(entries)
  {
    if n < |entries| {
      PrefixIsSmaller(entries[..|entries| - 1], n);
      assert entries[..|entries| - 1][..n] == entries[..n];
    } else {
      assert entries[..n] == entries;
    }
  }

  lemma {:induction false} SeenGrows(rules: Rules, t: Tally, entries: Entries, depth: nat)
    ensures AddAll(rules, t, entries, depth).seen == t.seen + SizeOf(entries)
    decreases entries, 0
  {
    if entries != [] {
      var init, last := entries[..|entries| - 1], entries[|entries| - 1];
      SeenGrows(rules, t, init, depth);
      NodeSeenGrows(rules, AddAll(rules, t, init, depth), last.name, last.node, depth);
    }
  }

  lemma {:induction false} NodeSeenGrows(rules: Rules, t: Tally, name: string, node: Node, depth: nat)
    ensures AddNode(rules, t, name, node, depth).seen == t.seen + Size(node)
    decreases node, 1
  {
    if node.Folder? {
      SeenGrows(rules, t.(seen := t.seen + 1), node.entries, depth + 1);
    }
  }

  // ---------------------------------------------------------------- the walk

  class Walk {
    const rules: Rules
    var drift: nat
    var present: set<string>
    var seen: nat
    var vendors: seq<string>

    constructor (rules: Rules)
      ensures this.rules == rules && State() == Tally(0, {}, 0, [])
    {
      this.rules := rules;
      drift, present, seen, vendors := 0, {}, 0, [];
    }

    function State(): Tally
      reads this
    {
      Tally(drift, present, seen, vendors)
    }

    /** visit: raises Unknown (known is false) exactly when an entry at or below stops the walk or the entries are too
        many; otherwise the counters have taken in every entry below. */
    method Visit(node: Node, depth: nat) returns (known: bool)
      requires (node.Folder? || node.Unlistable?) && seen <= rules.maxEntries
      modifies this
      ensures known <==> (depth <= rules.maxDepth && node.Folder? && AllWalkable(rules, node.entries, depth)
                          && old(seen) + SizeOf(node.entries) <= rules.maxEntries)
      ensures known ==> State() == AddAll(rules, old(State()), node.entries, depth) && seen <= rules.maxEntries
      decreases node, 0
    {
      if depth > rules.maxDepth || node.Unlistable? {
        return false;
      }
      var entries := node.entries;
      ghost var start := State();
      for i := 0 to |entries|
        invariant State() == AddAll(rules, start, entries[..i], depth) && seen <= rules.maxEntries
        invariant AllWalkable(rules, entries[..i], depth)
      {
        assert entries[..i + 1][..i] == entries[..i];
        var more := VisitEntry(entries[i].name, entries[i].node, depth);
        SeenGrows(rules, start, entries[..i], depth);
        PrefixIsSmaller(entries, i + 1);
        if !more {
          if AllWalkable(rules, entries, depth) {
            PrefixIsWalkable(rules, entries, i + 1, depth);
          }
          return false;
        }
      }
      assert entries[..|entries|] == entries;
      SeenGrows(rules, start, entries, depth);
      return true;
    }

    /** One turn of visit's loop. */
    method VisitEntry(name: string, node: Node, depth: nat) returns (known: bool)
      requires seen <= rules.maxEntries
      modifies this
      ensures known <==> Walkable(rules, name, node, depth) && old(seen) + Size(node) <= rules.maxEntries
      ensures known ==> State() == AddNode(rules, old(State()), name, node, depth) && seen <= rules.maxEntries
      decreases node, 1
    {
      seen := seen + 1;
      if seen > rules.maxEntries {
        return false;
      }
      var shipped, markdown := depth == 0 && name in rules.expected, IsMarkdown(name);
      match node {
        case Vanished =>
          return false;
        case Link(target) =>
          if target == ToFolder {
            return false;
          }
          if markdown && target == ToFile && !shipped {
            drift := drift + 1;
          }
        case Special =>
        case Unreadable =>
          if shipped {
            return false;
          }
          if markdown && !(depth == 0 && name in rules.vendors) {
            drift := drift + 1;
          }
        case Folder(_) | Unlistable =>
          known := Visit(node, depth + 1);
          return known;
        case File(data) =>
          if shipped {
            if data.None? {
              return false;
            }
            present := present + {name};
            if data.value != rules.expected[name] {
              drift := drift + 1;
            }
          } else if depth == 0 && name in rules.vendors {
            if data.None? {
              return false;
            }
            vendors := vendors + [data.value];
          } else if markdown {
            drift := drift + 1;
          }
      }
      return true;
    }
  }
}
