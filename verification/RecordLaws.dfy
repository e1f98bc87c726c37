// What a mapped field holds, in terms of the record it was mapped from: the record's own value, converted;
// the default only where the record has none; and nothing where there is neither.
module RecordLaws {
  import opened Strings
  import opened Selectors
  import opened SelectorLaws
  import opened Mapping
  import opened MappingLaws

  // ----- the record's own value -----

  /** The value a source names in a record: the member of that name, or, for a `$` path, the first value
      the path denotes. */
  ghost predicate SourceValue(record: Json, source: string, v: Json) {
    record.Object?
    && if source != "" && source[0] == '$' then Resolve(record, source) != [] && v == Resolve(record, source)[0]
       else exists k: nat :: MemberAt(record.fields, source, k) && record.fields[k].1 == v
  }

  predicate Empty(v: Json) { v == Null || v == Scalar("") }

  /** The record has a value for the source, and it is not empty. */
  ghost predicate Carries(record: Json, source: string) { exists v :: SourceValue(record, source, v) && !Empty(v) }

  /** Each step is the next transform applied to the one before. */
  ghost predicate Transforms(c: Conversion, names: seq<string>, steps: seq<Json>) {
    |steps| == |names| + 1 && forall j :: 0 <= j < |names| ==> steps[j + 1] == c.transform(names[j], steps[j])
  }

  /** What a rule path reads where `v` was mapped, by the target's name. */
  predicate ReadsAs(c: Conversion, target: string, v: Json, node: Node) {
    if target == "amount.amount_minor" then node == NumberNode(c.minor(v))
    else if target == "amount.currency" then
      node == TextNode(c.upper(if |c.text(v)| >= 3 then c.text(v)[..3] else c.text(v)))
    else if target == "remittance.unstructured" || target == "debtor.postal_address.address_lines"
            || target == "creditor.postal_address.address_lines" then node == LinesNode([c.text(v)])
    else node == TextNode(c.text(v))
  }

  // ----- reading the record -----

  /** The looked-up value is empty exactly when the record carries none, and else it is the record's own. */
  lemma GotValue(record: Json, source: string)
    ensures forall v :: SourceValue(record, source, v) ==> GetValue(record, source) == v
    ensures Missing(GetValue(record, source)) <==> !Carries(record, source)
  {
    if record.Object? && !(source != "" && source[0] == '$') {
      MemberIs(record.fields, source);
      if Member(record.fields, source) != [] {
        var k: nat :| MemberAt(record.fields, source, k);
        assert SourceValue(record, source, record.fields[k].1);
      }
    }
    if !Missing(GetValue(record, source)) {
      assert SourceValue(record, source, GetValue(record, source));
    }
  }

  lemma {:induction false} TransformedIs(c: Conversion, names: seq<string>, steps: seq<Json>)
    requires Transforms(c, names, steps)
    ensures Transformed(c, steps[0], names) == steps[|names|]
  {
    if names != [] {
      var n := |names| - 1;
      assert names[..n] + [names[n]] == names;
      TransformedIs(c, names[..n], steps[..n + 1]);
    }
  }

  /** Any value can be taken through the transforms. */
  lemma {:induction false} TransformsOf(c: Conversion, v: Json, names: seq<string>) returns (steps: seq<Json>)
    ensures Transforms(c, names, steps) && steps[0] == v
  {
    if names == [] {
      steps := [v];
    } else {
      var n := |names| - 1;
      steps := TransformsOf(c, v, names[..n]);
      steps := steps + [c.transform(names[n], steps[n])];
    }
  }

  // ----- names of the targets with their own conversions -----

  lemma MoneyNames()
    ensures NameOf(AmountMinor) == "amount.amount_minor" && NameOf(AmountCurrency) == "amount.currency"
  {
    TwoSteps("amount", "amount_minor");
    TwoSteps("amount", "currency");
    assert "amount" + "." + "amount_minor" == "amount.amount_minor" && "amount" + "." + "currency" == "amount.currency";
  }

  lemma LineNames()
    ensures NameOf(Unstructured) == "remittance.unstructured"
    ensures NameOf(PartyAddress(Debtor, Lines)) == "debtor.postal_address.address_lines"
    ensures NameOf(PartyAddress(Creditor, Lines)) == "creditor.postal_address.address_lines"
  {
    TwoSteps("remittance", "unstructured");
    ThreeSteps("debtor", "postal_address", "address_lines");
    ThreeSteps("creditor", "postal_address", "address_lines");
    assert "remittance" + "." + "unstructured" == "remittance.unstructured";
    DebtorLines();
    CreditorLines();
  }

  lemma DebtorLines()
    ensures "debtor" + "." + ("postal_address" + "." + "address_lines") == "debtor.postal_address.address_lines"
  {
  }

  lemma CreditorLines()
    ensures "creditor" + "." + ("postal_address" + "." + "address_lines") == "creditor.postal_address.address_lines"
  {
  }

  lemma TwoSteps(a: string, b: string)
    ensures Join([a, b], ".") == a + "." + b
  {
    assert [a, b][1..] == [b];
  }

  lemma ThreeSteps(a: string, b: string, d: string)
    ensures Join([a, b, d], ".") == a + "." + (b + "." + d)
  {
    assert [a, b, d][1..] == [b, d];
    TwoSteps(b, d);
  }

  lemma StepsDecide(t: Target, u: Target)
    requires NameOf(t) == NameOf(u)
    ensures Steps(t) == Steps(u)
  {
    DotsOfName(t);
    DotsOfName(u);
  }

  lemma SecondSteps()
    ensures "amount_minor" != "currency" && "amount" != "debtor" && "amount" != "creditor" && "remittance" != "amount"
    ensures "remittance" != "debtor" && "remittance" != "creditor" && "debtor" != "creditor"
  {
  }

  lemma OnlyMinor(t: Target)
    requires Steps(t) == ["amount", "amount_minor"]
    ensures t.AmountMinor?
  {
    assert Steps(t)[0] == "amount" && Steps(t)[1] == "amount_minor";
    SecondSteps();
    TopSteps();
  }

  lemma OnlyCurrency(t: Target)
    requires Steps(t) == ["amount", "currency"]
    ensures t.AmountCurrency?
  {
    assert Steps(t)[0] == "amount" && Steps(t)[1] == "currency";
    SecondSteps();
    TopSteps();
  }

  lemma OnlyLines(t: Target)
    requires Steps(t) == ["remittance", "unstructured"] || Steps(t) == ["debtor", "postal_address", "address_lines"]
      || Steps(t) == ["creditor", "postal_address", "address_lines"]
    ensures t.Unstructured? || (t.PartyAddress? && t.field.Lines?)
  {
    SecondSteps();
    TopSteps();
    if |Steps(t)| == 3 {
      assert Steps(t)[2] == "address_lines" && t.PartyAddress?;
      LineStep(t.field);
    } else {
      assert Steps(t)[0] == "remittance";
    }
  }

  lemma LineStep(f: AddressField)
    requires FieldStep(f) == "address_lines"
    ensures f.Lines?
  {
  }

  lemma MoneyKinds(t: Target)
    ensures NameOf(t) == "amount.amount_minor" <==> t.AmountMinor?
    ensures NameOf(t) == "amount.currency" <==> t.AmountCurrency?
  {
    MoneyNames();
    if NameOf(t) == NameOf(AmountMinor) {
      StepsDecide(t, AmountMinor);
      OnlyMinor(t);
    }
    if NameOf(t) == NameOf(AmountCurrency) {
      StepsDecide(t, AmountCurrency);
      OnlyCurrency(t);
    }
  }

  lemma LineKinds(t: Target)
    ensures (|| NameOf(t) == NameOf(Unstructured) || NameOf(t) == NameOf(PartyAddress(Debtor, Lines))
             || NameOf(t) == NameOf(PartyAddress(Creditor, Lines))) <==> HoldsLines(t)
  {
    if NameOf(t) == NameOf(Unstructured) {
      StepsDecide(t, Unstructured);
      OnlyLines(t);
    } else if NameOf(t) == NameOf(PartyAddress(Debtor, Lines)) {
      StepsDecide(t, PartyAddress(Debtor, Lines));
      OnlyLines(t);
    } else if NameOf(t) == NameOf(PartyAddress(Creditor, Lines)) {
      StepsDecide(t, PartyAddress(Creditor, Lines));
      OnlyLines(t);
    }
  }

  predicate HoldsLines(t: Target) {
    t == Unstructured || t == PartyAddress(Debtor, Lines) || t == PartyAddress(Creditor, Lines)
  }

  lemma FirstThree(s: string)
    ensures (if |s| >= 3 then s[..3] else s) == if |s| <= 3 then s else s[..3]
  {
  }

  /** The conversion of a target is the one its name calls for. */
  lemma ConvertedReads(c: Conversion, t: Target, v: Json)
    ensures ReadsAs(c, NameOf(t), v, Converted(c, t, v))
  {
    MoneyKinds(t);
    LineKinds(t);
    LineNames();
    FirstThree(c.text(v));
    ReadsByKind(c, NameOf(t), v, t.AmountMinor?, t.AmountCurrency?, HoldsLines(t), Converted(c, t, v));
  }

  lemma ReadsByKind(c: Conversion, name: string, v: Json, minor: bool, currency: bool, lines: bool, node: Node)
    requires minor <==> name == "amount.amount_minor"
    requires currency <==> name == "amount.currency"
    requires lines <==> (|| name == "remittance.unstructured" || name == "debtor.postal_address.address_lines"
                         || name == "creditor.postal_address.address_lines")
    requires minor ==> node == NumberNode(c.minor(v))
    requires !minor && currency ==> node == TextNode(c.upper(if |c.text(v)| >= 3 then c.text(v)[..3] else c.text(v)))
    requires !minor && !currency && lines ==> node == LinesNode([c.text(v)])
    requires !minor && !currency && !lines ==> node == TextNode(c.text(v))
    ensures ReadsAs(c, name, v, node)
  {
  }

  lemma ReadField(c: Conversion, record: Json, fields: seq<FieldMapping>, prefix: string, i: nat, v: Json)
    requires ValidFields(fields) && i < |fields| && FieldValue(c, record, fields[i]) == Some(v)
    ensures ReadsAs(c, fields[i].target, v, ResolveField(MapFields(c, record, fields, prefix), fields[i].target))
  {
    MappedIsReadBack(c, record, fields, prefix, i);
    ConvertedReads(c, TargetOf(fields[i].target), v);
  }

  // ----- the laws -----

  /** Where the record carries a value, the target reads that value after the transforms, first to last, in
      the target's own conversion; the default plays no part. */
  lemma OwnValueIsRead(c: Conversion, record: Json, fields: seq<FieldMapping>, prefix: string, i: nat, steps: seq<Json>)
    requires ValidFields(fields) && i < |fields| && Transforms(c, fields[i].transforms, steps)
    requires SourceValue(record, fields[i].source, steps[0]) && !Empty(steps[0])
    ensures ReadsAs(c, fields[i].target, steps[|steps| - 1],
                    ResolveField(MapFields(c, record, fields, prefix), fields[i].target))
  {
    GotValue(record, fields[i].source);
    TransformedIs(c, fields[i].transforms, steps);
    ReadField(c, record, fields, prefix, i, steps[|steps| - 1]);
  }

  /** Where it carries none, a field that is not required reads its default after the transforms. */
  lemma DefaultIsRead(c: Conversion, record: Json, fields: seq<FieldMapping>, prefix: string, i: nat, steps: seq<Json>)
    requires ValidFields(fields) && i < |fields| && Transforms(c, fields[i].transforms, steps)
    requires !Carries(record, fields[i].source) && !fields[i].required
    requires fields[i].default.Some? && steps[0] == Scalar(fields[i].default.value)
    ensures ReadsAs(c, fields[i].target, steps[|steps| - 1],
                    ResolveField(MapFields(c, record, fields, prefix), fields[i].target))
  {
    GotValue(record, fields[i].source);
    TransformedIs(c, fields[i].transforms, steps);
    ReadField(c, record, fields, prefix, i, steps[|steps| - 1]);
  }

  /** Otherwise the field writes nothing: the transaction is the one mapped without it. */
  lemma OtherwiseUnset(c: Conversion, record: Json, fields: seq<FieldMapping>, prefix: string, i: nat)
    requires i < |fields| && !Carries(record, fields[i].source) && (fields[i].required || fields[i].default.None?)
    ensures MapFields(c, record, fields, prefix) == MapFields(c, record, fields[..i] + fields[i + 1..], prefix)
  {
    GotValue(record, fields[i].source);
    SkipField(c, record, fields, prefix, i);
  }

  /** The transaction once a field's value, if any, is written. */
  function Written(c: Conversion, record: Json, fm: FieldMapping, tx: Tx, prefix: string): Tx {
    if FieldValue(c, record, fm).Some? then SetTarget(c, tx, fm.target, FieldValue(c, record, fm).value, prefix) else tx
  }

  lemma MapNext(c: Conversion, record: Json, front: seq<FieldMapping>, fm: FieldMapping, prefix: string)
    ensures MapFields(c, record, front + [fm], prefix) == Written(c, record, fm, MapFields(c, record, front, prefix), prefix)
  {
    assert (front + [fm])[..|front|] == front;
  }

  lemma SameThenOne(c: Conversion, record: Json, front: seq<FieldMapping>, other: seq<FieldMapping>, last: FieldMapping, prefix: string)
    requires MapFields(c, record, front, prefix) == MapFields(c, record, other, prefix)
    ensures MapFields(c, record, front + [last], prefix) == MapFields(c, record, other + [last], prefix)
  {
    MapNext(c, record, front, last, prefix);
    MapNext(c, record, other, last, prefix);
  }

  lemma NothingWritten(c: Conversion, record: Json, front: seq<FieldMapping>, last: FieldMapping, prefix: string)
    requires FieldValue(c, record, last).None?
    ensures MapFields(c, record, front + [last], prefix) == MapFields(c, record, front, prefix)
  {
    MapNext(c, record, front, last, prefix);
  }

  function WithoutAt(fields: seq<FieldMapping>, i: nat): seq<FieldMapping>
    requires i < |fields|
  {
    fields[..i] + fields[i + 1..]
  }

  lemma WithoutNext(front: seq<FieldMapping>, last: FieldMapping, i: nat)
    requires i <= |front|
    ensures WithoutAt(front + [last], i) == if i < |front| then WithoutAt(front, i) + [last] else front
  {
  }

  lemma {:induction false} SkipField(c: Conversion, record: Json, fields: seq<FieldMapping>, prefix: string, i: nat)
    requires i < |fields| && FieldValue(c, record, fields[i]).None?
    ensures MapFields(c, record, fields, prefix) == MapFields(c, record, WithoutAt(fields, i), prefix)
    decreases |fields|
  {
    var n := |fields| - 1;
    SplitLast(fields);
    WithoutNext(fields[..n], fields[n], i);
    if i < n {
      SkipField(c, record, fields[..n], prefix, i);
      SameThenOne(c, record, fields[..n], WithoutAt(fields[..n], i), fields[n], prefix);
    } else {
      NothingWritten(c, record, fields[..n], fields[n], prefix);
    }
  }

  lemma SplitLast(fields: seq<FieldMapping>)
    requires fields != []
    ensures fields == fields[..|fields| - 1] + [fields[|fields| - 1]]
  {
  }

  /** The targets listed as missing are exactly those of the required fields whose value the record lacks. */
  lemma {:induction false} MissingIff(record: Json, fields: seq<FieldMapping>, target: string)
    ensures target in MissingRequired(record, fields)
      <==> exists i :: 0 <= i < |fields| && LacksRequired(record, fields[i], target)
  {
    if fields != [] {
      var front, last := fields[..|fields| - 1], fields[|fields| - 1];
      MissingIff(record, front, target);
      GotValue(record, last.source);
      LastMissing(record, front, last, target);
      assert fields == front + [last];
    }
  }

  lemma LastMissing(record: Json, front: seq<FieldMapping>, last: FieldMapping, target: string)
    requires Missing(GetValue(record, last.source)) <==> !Carries(record, last.source)
    requires target in MissingRequired(record, front)
      <==> exists i :: 0 <= i < |front| && LacksRequired(record, front[i], target)
    ensures target in MissingRequired(record, front + [last])
      <==> exists i :: 0 <= i < |front + [last]| && LacksRequired(record, (front + [last])[i], target)
  {
    var fields := front + [last];
    assert fields[..|fields| - 1] == front && fields[|front|] == last;
    forall i | 0 <= i < |front| ensures fields[i] == front[i] {
    }
  }

  ghost predicate LacksRequired(record: Json, fm: FieldMapping, target: string) {
    fm.required && fm.target == target && !Carries(record, fm.source)
  }

  // ----- whole messages -----

  lemma {:induction false} MappedAt(c: Conversion, records: seq<Json>, fields: seq<FieldMapping>, n: nat)
    requires n < |records|
    ensures MapAll(c, records, fields)[n] == MapFields(c, records[n], fields, "transactions[" + Decimal(n) + "]")
  {
    if n < |records| - 1 {
      MappedAt(c, records[..|records| - 1], fields, n);
    }
  }

  /** For every validated definition and every record: a target reads the record's own value, transformed and
      converted, whatever the default; the default where the record has none and the field is not required;
      and otherwise the field might as well not be there. */
  lemma MappedFromRecord(c: Conversion, records: seq<Json>, fields: seq<FieldMapping>, n: nat, i: nat, steps: seq<Json>)
    requires ValidFields(fields) && n < |records| && i < |fields| && Transforms(c, fields[i].transforms, steps)
    ensures var fm, tx, last := fields[i], MapAll(c, records, fields)[n], steps[|steps| - 1];
      && (SourceValue(records[n], fm.source, steps[0]) && !Empty(steps[0]) ==>
            ReadsAs(c, fm.target, last, ResolveField(tx, fm.target)))
      && (!Carries(records[n], fm.source) && !fm.required && fm.default.Some? && steps[0] == Scalar(fm.default.value) ==>
            ReadsAs(c, fm.target, last, ResolveField(tx, fm.target)))
      && (!Carries(records[n], fm.source) && (fm.required || fm.default.None?) ==>
            tx == MapAll(c, records, fields[..i] + fields[i + 1..])[n])
  {
    var fm, prefix := fields[i], "transactions[" + Decimal(n) + "]";
    var rest := fields[..i] + fields[i + 1..];
    MappedAt(c, records, fields, n);
    MappedAt(c, records, rest, n);
    if SourceValue(records[n], fm.source, steps[0]) && !Empty(steps[0]) {
      OwnValueIsRead(c, records[n], fields, prefix, i, steps);
    }
    if !Carries(records[n], fm.source) && !fm.required && fm.default.Some? && steps[0] == Scalar(fm.default.value) {
      DefaultIsRead(c, records[n], fields, prefix, i, steps);
    }
    if !Carries(records[n], fm.source) && (fm.required || fm.default.None?) {
      OtherwiseUnset(c, records[n], fields, prefix, i);
    }
  }
}
