// What one step of a path selects from a value, by the printed step; with Selectors.ResolveJoin this gives the
// meaning of every path.
module SelectorLaws {
  import opened Strings
  import opened Selectors

  /** The `k`-th member is the first of that name. */
  ghost predicate MemberAt(fields: seq<(string, Json)>, name: string, k: nat) {
    k < |fields| && fields[k].0 == name && forall j :: 0 <= j < k ==> fields[j].0 != name
  }

  lemma {:induction false} MemberIs(fields: seq<(string, Json)>, name: string)
    ensures Member(fields, name) == [] <==> forall k: nat :: !MemberAt(fields, name, k)
    ensures forall k: nat :: MemberAt(fields, name, k) ==> Member(fields, name) == [fields[k].1]
  {
    if fields != [] {
      var rest := fields[1..];
      MemberIs(rest, name);
      if fields[0].0 == name {
        assert MemberAt(fields, name, 0);
      } else {
        forall k: nat | MemberAt(fields, name, k) ensures k > 0 && MemberAt(rest, name, k - 1) && fields[k] == rest[k - 1] {
          ShiftedMember(fields, name, k);
        }
        if Member(rest, name) != [] {
          var k: nat :| MemberAt(rest, name, k);
          assert MemberAt(fields, name, k + 1);
        }
      }
    }
  }

  lemma ShiftedMember(fields: seq<(string, Json)>, name: string, k: nat)
    requires MemberAt(fields, name, k) && fields[0].0 != name
    ensures k > 0 && MemberAt(fields[1..], name, k - 1) && fields[k] == fields[1..][k - 1]
  {
    forall j | 0 <= j < k - 1 ensures fields[1..][j].0 != name {
      assert fields[1..][j] == fields[j + 1];
    }
  }

  /** The values of the members, in order. */
  predicate Projects(values: seq<Json>, fields: seq<(string, Json)>) {
    |values| == |fields| && forall k :: 0 <= k < |fields| ==> values[k] == fields[k].1
  }

  lemma {:induction false} ValuesAre(fields: seq<(string, Json)>)
    ensures Projects(Values(fields), fields)
  {
    if fields != [] {
      ValuesAre(fields[1..]);
    }
  }

  lemma ResolveOne(item: Json, path: string, t: Token)
    requires Tokens(path) == [t]
    ensures Resolve(item, path) == Select(t, item)
  {
    assert [t][..0] == [] && [item][..0] == [];
    assert Walk([t], [item]) == SelectAll(t, [item]);
    assert SelectAll(t, [item]) == SelectAll(t, []) + Select(t, item);
  }

  lemma BlankTokens(first: Token, path: string)
    requires Tokens(path + "") == [first] + Tokens("")
    ensures Tokens(path) == [first]
  {
    assert path + "" == path;
  }

  /** `$` is the value itself. */
  lemma RootMeans(data: Json)
    ensures Resolve(data, "$") == [data]
  {
    SkipTokens('$', "");
    assert ['$'] + "" == "$";
  }

  /** `[k]` is the item at that place of an array, counted from zero, and nothing of any other value. */
  lemma IndexMeans(item: Json, k: nat, v: Json)
    ensures |Resolve(item, "[" + (Decimal(k) + "]"))| <= 1
    ensures Resolve(item, "[" + (Decimal(k) + "]")) == [v] <==> item.Array? && k < |item.items| && item.items[k] == v
  {
    IndexTokens(k, "");
    BlankTokens(Index(k), "[" + (Decimal(k) + "]"));
    ResolveOne(item, "[" + (Decimal(k) + "]"), Index(k));
  }

  /** A name is the value of the first member of that name, and nothing of a value that has none. */
  lemma NameMeans(item: Json, name: string, v: Json)
    requires IsKey(name)
    ensures |Resolve(item, name)| <= 1
    ensures Resolve(item, name) == [v] <==> item.Object? && exists k: nat :: MemberAt(item.fields, name, k) && item.fields[k].1 == v
  {
    KeyTokens(name, "");
    BlankTokens(Key(name), name);
    ResolveOne(item, name, Key(name));
    if item.Object? {
      MemberIs(item.fields, name);
      MemberAtMostOne(item.fields, name);
    }
  }

  /** `[*]` is every item of an array, or the value of every member of an object, in order. */
  lemma WildcardMeans(item: Json)
    ensures item.Array? ==> Resolve(item, "[*]") == item.items
    ensures item.Object? ==> Projects(Resolve(item, "[*]"), item.fields)
    ensures !item.Array? && !item.Object? ==> Resolve(item, "[*]") == []
  {
    WildcardTokens("");
    BlankTokens(Wildcard, "[*]");
    ResolveOne(item, "[*]", Wildcard);
    if item.Object? {
      ValuesAre(item.fields);
    }
  }
}
