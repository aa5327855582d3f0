/**
  The per-field rules of `validateForm`. The form walks its schema in order and,
  for each field, runs three `if` statements one after the other, each of which
  may write the field's entry of a fresh error map; a later matching rule
  therefore overwrites an earlier one. Whether a string is a JavaScript number
  (`Number(value)` is not NaN) or a date (`new Date(value)` is valid) is decided
  by the host's parsers, given here as a `Parsers` value.
 */
module Validation {
  import opened FormModel

  /** The JavaScript engine's number and date recognisers. */
  datatype Parsers = Parsers(isNumber: string -> bool, isDate: string -> bool)

  /**
    The three messages begin with the field's label, and for one label they are
    pairwise different, so a message tells which check failed.
   */
  function RequiredMessage(caption: string): (m: string)
    ensures |m| > |caption| && m[..|caption|] == caption
    ensures m != NumberMessage(caption) && m != DateMessage(caption)
  {
    caption + " is required"
  }

  function NumberMessage(caption: string): (m: string)
    ensures |m| > |caption| && m[..|caption|] == caption
    ensures m != DateMessage(caption)
  {
    caption + " must be a valid number"
  }

  function DateMessage(caption: string): (m: string)
    ensures |m| > |caption| && m[..|caption|] == caption
  {
    caption + " must be a valid date"
  }

  /**
    One pass of the loop body for field `f`, as the code runs it: the required
    check, then the number check, then the date check, each writing
    `errs[f.name]` when it matches. The last matching check wins, so the pass
    writes exactly `FieldMessage` into `f`'s entry, or leaves `errs` alone.
   */
  function ApplyChecks(f: FieldSchema, data: Record, p: Parsers, errs: Errors): (r: Errors)
    ensures var m := FieldMessage(f, Lookup(data, f.name), p);
            r == if m.Some? then errs[f.name := m.value] else errs
  {
    var value := Lookup(data, f.name);
    var e1 := if f.required && !Filled(value) then errs[f.name := RequiredMessage(f.caption)] else errs;
    var e2 := if f.kind == Number && Truthy(value) && !p.isNumber(value.value)
              then e1[f.name := NumberMessage(f.caption)] else e1;
    if f.kind == Date && Truthy(value) && !p.isDate(value.value)
    then e2[f.name := DateMessage(f.caption)] else e2
  }

  /**
    The error map `validateForm` builds for `fields` over `data`, starting from
    `{}`; it only ever reports fields of the schema.
   */
  function Validate(fields: seq<FieldSchema>, data: Record, p: Parsers): (r: Errors)
    ensures r.Keys <= Names(fields)
  {
    if |fields| == 0 then map[]
    else
      NamesOfPrefix(fields);
      ApplyChecks(fields[|fields| - 1], data, p, Validate(fields[..|fields| - 1], data, p))
  }

  lemma NamesOfPrefix(fields: seq<FieldSchema>)
    requires |fields| > 0
    ensures Names(fields[..|fields| - 1]) <= Names(fields)
  {
    forall n | n in Names(fields[..|fields| - 1]) ensures n in Names(fields) {
      var f :| f in fields[..|fields| - 1] && f.name == n;
      assert f in fields;
    }
  }

  /**
    The one message a field ends up with, as a reference definition: the last
    rule of the three that matches wins, so a failed date or number check
    beats the required check.
   */
  function FieldMessage(f: FieldSchema, value: Option<string>, p: Parsers): (m: Option<string>)
    ensures m.Some? ==> m.value in {RequiredMessage(f.caption), NumberMessage(f.caption), DateMessage(f.caption)}
    ensures !f.required && f.kind != Number && f.kind != Date ==> m == None
    ensures m.None? <==> (!f.required || Filled(value))
                         && !(f.kind == Number && Truthy(value) && !p.isNumber(value.value))
                         && !(f.kind == Date && Truthy(value) && !p.isDate(value.value))
  {
    if f.kind == Date && Truthy(value) && !p.isDate(value.value) then Some(DateMessage(f.caption))
    else if f.kind == Number && Truthy(value) && !p.isNumber(value.value) then Some(NumberMessage(f.caption))
    else if f.required && !Filled(value) then Some(RequiredMessage(f.caption))
    else None
  }

  /**
    In a schema with unique names, field `i` has an entry exactly when one of
    its rules fails, and the entry is that field's message.
   */
  lemma {:induction false} ValidateField(fields: seq<FieldSchema>, data: Record, p: Parsers, i: int)
    requires UniqueNames(fields) && 0 <= i < |fields|
    ensures var r := Validate(fields, data, p);
            var m := FieldMessage(fields[i], Lookup(data, fields[i].name), p);
            (fields[i].name in r <==> m.Some?) && (m.Some? ==> r[fields[i].name] == m.value)
  {
    var n := |fields| - 1;
    var init := fields[..n];
    var prev := Validate(init, data, p);
    assert Validate(fields, data, p) == ApplyChecks(fields[n], data, p, prev);
    assert UniqueNames(init);
    if i < n {
      ValidateField(init, data, p, i);
      assert fields[n].name != fields[i].name;
    } else {
      assert fields[n].name !in Names(init);
    }
  }

  /** `validateForm` returns true (no errors) exactly when no field has a message. */
  lemma {:induction false} ValidateEmpty(fields: seq<FieldSchema>, data: Record, p: Parsers)
    ensures Validate(fields, data, p) == map[]
            <==> forall i :: 0 <= i < |fields| ==> FieldMessage(fields[i], Lookup(data, fields[i].name), p).None?
  {
    if |fields| > 0 {
      var n := |fields| - 1;
      var init := fields[..n];
      ValidateEmpty(init, data, p);
      var m := FieldMessage(fields[n], Lookup(data, fields[n].name), p);
      if m.Some? {
        assert fields[n].name in Validate(fields, data, p);
      } else {
        assert forall i :: 0 <= i < n ==> fields[i] == init[i];
      }
    }
  }

  /** Only the values of the schema's own fields matter: other keys of the form data are ignored. */
  lemma {:induction false} ValidateReadsSchemaFieldsOnly(fields: seq<FieldSchema>, d1: Record, d2: Record, p: Parsers)
    requires forall i :: 0 <= i < |fields| ==> Lookup(d1, fields[i].name) == Lookup(d2, fields[i].name)
    ensures Validate(fields, d1, p) == Validate(fields, d2, p)
  {
    if |fields| > 0 {
      var n := |fields| - 1;
      var init := fields[..n];
      assert forall i :: 0 <= i < n ==> init[i] == fields[i];
      ValidateReadsSchemaFieldsOnly(init, d1, d2, p);
      var prev := Validate(init, d1, p);
      assert Validate(fields, d1, p) == ApplyChecks(fields[n], d1, p, prev);
      assert Validate(fields, d2, p) == ApplyChecks(fields[n], d2, p, prev);
      assert Lookup(d1, fields[n].name) == Lookup(d2, fields[n].name);
    }
  }

  /**
    A required date field holding only whitespace gets the date message, not the
    required message: the date check runs after the required check.
   */
  lemma BlankRequiredDate(f: FieldSchema, v: string, p: Parsers)
    requires f.required && f.kind == Date
    requires v != "" && AllWhitespace(v) && !p.isDate(v)
    ensures Validate([f], map[f.name := v], p) == map[f.name := DateMessage(f.caption)]
  {
    TrimEmpty(v);
    assert [f][..0] == [];
    assert Validate([f], map[f.name := v], p) == ApplyChecks(f, map[f.name := v], p, map[]);
  }

  /**
    A required number field holding only whitespace keeps the required message
    when the host reads that string as a number (as `Number` reads blank text as 0).
   */
  lemma BlankRequiredNumber(f: FieldSchema, v: string, p: Parsers)
    requires f.required && f.kind == Number
    requires AllWhitespace(v) && p.isNumber(v)
    ensures Validate([f], map[f.name := v], p) == map[f.name := RequiredMessage(f.caption)]
  {
    TrimEmpty(v);
    assert [f][..0] == [];
    assert Validate([f], map[f.name := v], p) == ApplyChecks(f, map[f.name := v], p, map[]);
  }
}
