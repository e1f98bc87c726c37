// The mapper: it fills a transaction field by field, in place.
module Mapper {
  import opened Strings
  import opened Selectors
  import opened Mapping
  import opened MappingLaws

  // ----- the setters -----

  /** `_set_address`, on the address about to be stored. */
  method SetAddressField(c: Conversion, address: Address, seg: seq<string>, v: Json, path: string) returns (addr: Address)
    ensures addr == SetAddress(c, address, seg, v, path)
  {
    addr := address;
    if seg == [] {
      return;
    }
    addr := addr.(sourcePath := Some(path));
    var field, text := seg[0], c.text(v);
    if field == "street_name" {
      addr := addr.(streetName := Some(text));
    } else if field == "building_number" {
      addr := addr.(buildingNumber := Some(text));
    } else if field == "postcode" {
      addr := addr.(postcode := Some(text));
    } else if field == "town_name" {
      addr := addr.(townName := Some(text));
    } else if field == "country" {
      addr := addr.(country := Some(text));
      addr := addr.(originalFields := addr.originalFields["Ctry" := text]);
    } else if field == "address_lines" {
      addr := addr.(addressLines := addr.addressLines + [text]);
    }
  }

  /** `_set_account` */
  method SetAccountField(c: Conversion, existing: Option<Account>, seg: seq<string>, v: Json) returns (account: Account)
    ensures Some(account) == SetAccount(c, existing, seg, v)
  {
    account := Or(existing, NEW_ACCOUNT);
    if seg == [] {
      return;
    }
    if seg[0] == "iban" {
      account := account.(iban := Some(c.text(v)));
    } else if seg[0] == "name" {
      account := account.(name := Some(c.text(v)));
    } else if seg[0] == "other_identification" {
      account := account.(otherIdentification := Some(c.text(v)));
    }
  }

  /** `_set_agent` */
  method SetAgentField(c: Conversion, existing: Option<Agent>, seg: seq<string>, v: Json) returns (agent: Agent)
    ensures Some(agent) == SetAgent(c, existing, seg, v)
  {
    agent := Or(existing, NEW_AGENT);
    if seg == [] {
      return;
    }
    if seg[0] == "bic" {
      agent := agent.(bic := Some(c.text(v)));
    } else if seg[0] == "name" {
      agent := agent.(name := Some(c.text(v)));
    }
  }

  /** The targets read the same in both transactions. */
  ghost predicate StillRead(targets: set<Target>, before: Tx, after: Tx) {
    forall u :: u in targets ==> ResolveField(after, NameOf(u)) == ResolveField(before, NameOf(u))
  }

  predicate Reads(c: Conversion, tx: Tx, t: Target, v: Json) { ResolveField(tx, NameOf(t)) == Converted(c, t, v) }

  /** What one write may do to a transaction that holds exactly the values `m`: the target reads as its
      converted value, every value mapped before reads as before, and nothing else is stored. */
  ghost predicate WritesOnly(c: Conversion, m: Values, t: Target, v: Json, prefix: string, before: Tx, after: Tx) {
    after == TxOf(c, m[t := v], prefix) && Reads(c, after, t, v) && StillRead(m.Keys, before, after)
  }

  lemma ReadsAlike(c: Conversion, m: Values, m': Values, u: Target, prefix: string)
    requires u in m && u in m' && m'[u] == m[u]
    ensures ResolveField(TxOf(c, m', prefix), NameOf(u)) == ResolveField(TxOf(c, m, prefix), NameOf(u))
  {
    ReadTarget(c, m, u, prefix);
    ReadTarget(c, m', u, prefix);
  }

  /** The values of `m` are among those of `m'`. */
  ghost predicate Within(m: Values, m': Values) { forall u :: u in m ==> u in m' && m'[u] == m[u] }

  lemma OneMoreValue(m: Values, t: Target, v: Json)
    requires t !in m
    ensures Within(m, m[t := v])
  {
  }

  lemma AllReadAlike(c: Conversion, m: Values, m': Values, prefix: string)
    requires Within(m, m')
    ensures StillRead(m.Keys, TxOf(c, m, prefix), TxOf(c, m', prefix))
  {
    forall u | u in m.Keys ensures ResolveField(TxOf(c, m', prefix), NameOf(u)) == ResolveField(TxOf(c, m, prefix), NameOf(u)) {
      ReadsAlike(c, m, m', u, prefix);
    }
  }

  lemma NewReads(c: Conversion, m: Values, t: Target, v: Json, prefix: string)
    requires t in m && m[t] == v
    ensures Reads(c, TxOf(c, m, prefix), t, v)
  {
    ReadTarget(c, m, t, prefix);
  }

  lemma WriteReads(c: Conversion, m: Values, t: Target, v: Json, prefix: string, before: Tx, after: Tx)
    requires t !in m && before == TxOf(c, m, prefix) && after == SetTarget(c, before, NameOf(t), v, prefix)
    ensures WritesOnly(c, m, t, v, prefix, before, after)
  {
    WriteTarget(c, m, t, v, prefix);
    OneMoreValue(m, t, v);
    NewReads(c, m[t := v], t, v, prefix);
    AllReadAlike(c, m, m[t := v], prefix);
  }

  // ----- the transaction -----

  /** A transaction that the setters fill in place. */
  class TransactionRow {
    var tx: Tx

    constructor ()
      ensures tx == NEW_TX
    {
      tx := NEW_TX;
    }

    /** `_set_target`. On a transaction that holds exactly some mapped values, a new target adds its own
        value and disturbs no other. */
    method Set(c: Conversion, target: string, v: Json, prefix: string)
      modifies this
      ensures forall m: Values, t ::
                NameOf(t) == target && t !in m && old(tx) == TxOf(c, m, prefix) ==> WritesOnly(c, m, t, v, prefix, old(tx), tx)
      ensures tx == SetTarget(c, old(tx), target, v, prefix)
    {
      ghost var before := tx;
      SetSteps(c, Dots(target), v, prefix);
      forall m: Values, t | NameOf(t) == target && t !in m && before == TxOf(c, m, prefix)
        ensures WritesOnly(c, m, t, v, prefix, before, tx)
      {
        WriteReads(c, m, t, v, prefix, before, tx);
      }
    }

    /** The dispatch on the first segment. */
    method SetSteps(c: Conversion, seg: seq<string>, v: Json, prefix: string)
      modifies this
      ensures tx == SetSegments(c, old(tx), seg, v, prefix)
    {
      if seg == [] {
        return;
      }
      if seg[0] == "amount" && |seg| >= 2 {
        tx := tx.(amount := Some(Or(tx.amount, NEW_AMOUNT)));
        if seg[1] == "amount_minor" {
          tx := tx.(amount := Some(tx.amount.value.(amountMinor := c.minor(v))));
        } else if seg[1] == "currency" {
          tx := tx.(amount := Some(tx.amount.value.(currency := Currency(c, v))));
        }
        return;
      }
      if seg[0] == "instruction_id" {
        tx := tx.(instructionId := Some(c.text(v)));
      } else if seg[0] == "end_to_end_id" {
        tx := tx.(endToEndId := Some(c.text(v)));
      } else if seg[0] == "transaction_id" {
        tx := tx.(transactionId := Some(c.text(v)));
      } else if seg[0] == "debtor" {
        SetPartyField(c, Debtor, seg[1..], v, prefix);
      } else if seg[0] == "creditor" {
        SetPartyField(c, Creditor, seg[1..], v, prefix);
      } else if seg[0] == "debtor_account" {
        var account := SetAccountField(c, tx.debtorAccount, seg[1..], v);
        tx := tx.(debtorAccount := Some(account));
      } else if seg[0] == "creditor_account" {
        var account := SetAccountField(c, tx.creditorAccount, seg[1..], v);
        tx := tx.(creditorAccount := Some(account));
      } else if seg[0] == "debtor_agent" {
        var agent := SetAgentField(c, tx.debtorAgent, seg[1..], v);
        tx := tx.(debtorAgent := Some(agent));
      } else if seg[0] == "creditor_agent" {
        var agent := SetAgentField(c, tx.creditorAgent, seg[1..], v);
        tx := tx.(creditorAgent := Some(agent));
      } else if seg[0] == "remittance" {
        tx := tx.(remittance := Some(Or(tx.remittance, [])));
        if |seg| >= 2 && seg[1] == "unstructured" {
          tx := tx.(remittance := Some(tx.remittance.value + [c.text(v)]));
        }
      }
    }

    /** `_set_party` */
    method SetPartyField(c: Conversion, side: Side, seg: seq<string>, v: Json, prefix: string)
      modifies this
      ensures side.Debtor? ==>
        tx == old(tx).(debtor := SetParty(c, old(tx).debtor, seg, v, AddressPath(side, prefix)))
      ensures side.Creditor? ==>
        tx == old(tx).(creditor := SetParty(c, old(tx).creditor, seg, v, AddressPath(side, prefix)))
    {
      var party := Or(if side.Debtor? then tx.debtor else tx.creditor, NEW_PARTY);
      if seg == [] {
        return;
      }
      if seg[0] == "name" {
        party := party.(name := Some(c.text(v)));
      } else if seg[0] == "postal_address" {
        var addr := SetAddressField(c, Or(party.postalAddress, NEW_ADDRESS), seg[1..], v, AddressPath(side, prefix));
        party := party.(postalAddress := Some(addr));
      }
      if side.Debtor? {
        tx := tx.(debtor := Some(party));
      } else {
        tx := tx.(creditor := Some(party));
      }
    }
  }

  // ----- records -----

  method MapRecord(c: Conversion, record: Json, fields: seq<FieldMapping>, prefix: string)
    returns (tx: Tx, issues: seq<string>)
    ensures tx == MapFields(c, record, fields, prefix) && issues == MissingRequired(record, fields)
  {
    var row := new TransactionRow();
    issues := [];
    for k := 0 to |fields|
      invariant row.tx == MapFields(c, record, fields[..k], prefix) && issues == MissingRequired(record, fields[..k])
    {
      var fm := fields[k];
      assert fields[..k + 1][..k] == fields[..k];
      var value := GetValue(record, fm.source);
      if Missing(value) {
        if fm.required {
          issues := issues + [fm.target];
          continue;
        }
        if fm.default.None? {
          continue;
        }
        value := Scalar(fm.default.value);
      }
      value := ApplyTransforms(c, value, fm.transforms);
      row.Set(c, fm.target, value, prefix);
    }
    assert fields[..|fields|] == fields;
    tx := row.tx;
  }

  /** `_apply_transforms` */
  method ApplyTransforms(c: Conversion, v: Json, names: seq<string>) returns (value: Json)
    ensures value == Transformed(c, v, names)
  {
    value := v;
    for i := 0 to |names|
      invariant value == Transformed(c, v, names[..i])
    {
      assert names[..i + 1][..i] == names[..i];
      value := c.transform(names[i], value);
    }
    assert names[..|names|] == names;
  }

  /** The record loop of `map_to_canonical`: one transaction a record, and one MAP-001 issue for every
      required field a record lacks. */
  method MapRecords(c: Conversion, records: seq<Json>, fields: seq<FieldMapping>)
    returns (transactions: seq<Tx>, issues: seq<string>)
    ensures transactions == MapAll(c, records, fields) && issues == AllMissing(records, fields)
  {
    transactions, issues := [], [];
    for i := 0 to |records|
      invariant transactions == MapAll(c, records[..i], fields) && issues == AllMissing(records[..i], fields)
    {
      var tx, more := MapRecord(c, records[i], fields, Prefix(i));
      assert records[..i + 1][..i] == records[..i];
      transactions, issues := transactions + [tx], issues + more;
    }
    assert records[..|records|] == records;
  }
}
