/** How many characters json.dump writes for an object. */
module JsonSize {
  import opened Ordering

  /** What read_data accepts of a state file: 1024 * 1024 bytes. */
  const STATE_LIMIT: nat := 1_048_576

  /** A string that needs no escape, with its quotes. */
  function Quoted(s: string): nat { |s| + 2 }

  /** One member of an object that has any: the quoted name, ": " and the value, and two characters for the ", " before
      the next member or the two braces. */
  function Member(name: string, value: nat): nat { Quoted(name) + 4 + value }

  function Members<V>(m: map<string, V>, keys: seq<string>, size: V -> nat): nat
    requires forall k | k in keys :: k in m
  {
    if keys == [] then 0 else Member(keys[0], size(m[keys[0]])) + Members(m, keys[1..], size)
  }

  /** An object with the members of m in sorted order, given how many characters each value takes. */
  function ObjectSize<V>(m: map<string, V>, size: V -> nat): nat {
    if |m| == 0 then 2 else Members(m, Arrange(m.Keys), size)
  }

  // ---------------------------------------------------------------- the size is the length of the text

  function MemberTexts<V>(m: map<string, V>, keys: seq<string>, text: V -> string): string
    requires keys != [] && forall k | k in keys :: k in m
  {
    var first := "\"" + keys[0] + "\": " + text(m[keys[0]]);
    if |keys| == 1 then first else first + ", " + MemberTexts(m, keys[1..], text)
  }

  function ObjectText<V>(m: map<string, V>, text: V -> string): string {
    if |m| == 0 then "{}" else
      assert Arrange(m.Keys) != [] by {
        var k :| k in m;
        assert k in Arrange(m.Keys);
      }
      "{" + MemberTexts(m, Arrange(m.Keys), text) + "}"
  }

  lemma {:induction false} MembersAreTheirTexts<V>(
      m: map<string, V>, keys: seq<string>, text: V -> string, size: V -> nat)
    requires keys != [] && (forall k | k in keys :: k in m) && forall k | k in keys :: size(m[k]) == |text(m[k])|
    ensures |MemberTexts(m, keys, text)| + 2 == Members(m, keys, size)
  {
    if |keys| > 1 {
      MembersAreTheirTexts(m, keys[1..], text, size);
    } else {
      assert keys[1..] == [];
    }
  }

  lemma ObjectSizeIsTextLength<V>(m: map<string, V>, text: V -> string, size: V -> nat)
    requires forall k | k in m :: size(m[k]) == |text(m[k])|
    ensures ObjectSize(m, size) == |ObjectText(m, text)|
  {
    if |m| > 0 {
      var k :| k in m;
      assert k in Arrange(m.Keys);
      MembersAreTheirTexts(m, Arrange(m.Keys), text, size);
    }
  }

  // ---------------------------------------------------------------- many members make a long text

  lemma {:induction false} ArrangeCount(s: set<string>)
    ensures |Arrange(s)| == |s|
    decreases |s|
  {
    if s != {} {
      ArrangeCount(s - {Least(s)});
    }
  }

  lemma {:induction false} MembersAtLeast<V>(m: map<string, V>, keys: seq<string>, size: V -> nat, each: nat)
    requires forall k | k in keys :: k in m && Member(k, size(m[k])) >= each
    ensures Members(m, keys, size) >= each * |keys|
  {
    if keys != [] {
      MembersAtLeast(m, keys[1..], size, each);
      assert each * |keys| == each + each * |keys[1..]|;
    }
  }

  lemma ObjectSizeAtLeast<V>(m: map<string, V>, size: V -> nat, each: nat)
    requires forall k | k in m :: Member(k, size(m[k])) >= each
    ensures ObjectSize(m, size) >= each * |m|
  {
    ArrangeCount(m.Keys);
    assert |m.Keys| == |m|;
    MembersAtLeast(m, Arrange(m.Keys), size, each);
  }
}
