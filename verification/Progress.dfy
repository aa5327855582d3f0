/**
  `calculateProgress`: the share of the schema's required fields that are
  filled in, as a whole percentage. The code divides floating-point numbers and
  rounds with `Math.round`; here the quotient is exact and rounded half up,
  `(200 * completed + required) / (2 * required)`. With no required field the
  code divides 0 by 0 and gets NaN, so the percentage is only defined when at
  least one field is required.
 */
module Progress {
  import opened FormModel

  /**
    `formFields.filter(field => field.required).length`: at most the number of
    fields, and positive exactly when some field is required.
   */
  function RequiredCount(fields: seq<FieldSchema>): (c: nat)
    ensures c <= |fields|
    ensures c > 0 <==> exists i :: 0 <= i < |fields| && fields[i].required
  {
    if |fields| == 0 then 0
    else
      var init := fields[..|fields| - 1];
      assert forall i :: 0 <= i < |init| ==> init[i] == fields[i];
      RequiredCount(init) + (if fields[|fields| - 1].required then 1 else 0)
  }

  /** How many of the required fields hold a non-blank value. */
  function CompletedCount(fields: seq<FieldSchema>, data: Record): (c: nat)
    ensures c <= RequiredCount(fields)
  {
    if |fields| == 0 then 0
    else
      var f := fields[|fields| - 1];
      CompletedCount(fields[..|fields| - 1], data)
        + (if f.required && Filled(Lookup(data, f.name)) then 1 else 0)
  }

  predicate AllRequiredFilled(fields: seq<FieldSchema>, data: Record)
  {
    forall i :: 0 <= i < |fields| && fields[i].required ==> Filled(Lookup(data, fields[i].name))
  }

  predicate NoRequiredFilled(fields: seq<FieldSchema>, data: Record)
  {
    forall i :: 0 <= i < |fields| && fields[i].required ==> !Filled(Lookup(data, fields[i].name))
  }

  /** `Math.round(100 * c / r)` for `0 <= c <= r`, `r > 0`, rounding halves up. */
  function RoundedPercent(c: nat, r: nat): (pct: int)
    requires 0 < r && c <= r
    ensures 0 <= pct <= 100
    ensures pct == 100 <==> 200 * (r - c) <= r
    ensures pct == 0 <==> 200 * c < r
  {
    var a, d := 200 * c + r, 2 * r;
    if 200 * (r - c) <= r then
      DivRange(a, d, 100, 101);
      a / d
    else if 200 * c < r then
      DivRange(a, d, 0, 1);
      a / d
    else
      DivRange(a, d, 1, 100);
      a / d
  }

  /** A quotient lies in `[lo, hi)` when the dividend lies in `[d * lo, d * hi)`. */
  lemma DivRange(a: nat, d: nat, lo: nat, hi: nat)
    requires d > 0 && d * lo <= a < d * hi
    ensures lo <= a / d < hi
  {
    var q := a / d;
    assert d * q <= a < d * q + d;
    if q < lo {
      MulMonotone(d, q + 1, lo);
    } else if q >= hi {
      MulMonotone(d, hi, q);
    }
  }

  lemma MulMonotone(d: nat, x: nat, y: nat)
    requires x <= y
    ensures d * x <= d * y
  {
  }

  /** The percentage shown by the progress bar. */
  function Percent(fields: seq<FieldSchema>, data: Record): (pct: int)
    requires RequiredCount(fields) > 0
    ensures 0 <= pct <= 100
  {
    RoundedPercent(CompletedCount(fields, data), RequiredCount(fields))
  }

  /** Every required field is filled exactly when all of them are counted as completed. */
  lemma {:induction false} CompletedAll(fields: seq<FieldSchema>, data: Record)
    ensures CompletedCount(fields, data) == RequiredCount(fields) <==> AllRequiredFilled(fields, data)
  {
    if |fields| > 0 {
      var init := fields[..|fields| - 1];
      CompletedAll(init, data);
      assert forall i :: 0 <= i < |init| ==> init[i] == fields[i];
    }
  }

  /** No required field is filled exactly when none is counted as completed. */
  lemma {:induction false} CompletedNone(fields: seq<FieldSchema>, data: Record)
    ensures CompletedCount(fields, data) == 0 <==> NoRequiredFilled(fields, data)
  {
    if |fields| > 0 {
      var init := fields[..|fields| - 1];
      CompletedNone(init, data);
      assert forall i :: 0 <= i < |init| ==> init[i] == fields[i];
    }
  }

  /** A form whose required fields are all filled shows 100%. */
  lemma {:induction false} PercentFull(fields: seq<FieldSchema>, data: Record)
    requires RequiredCount(fields) > 0 && AllRequiredFilled(fields, data)
    ensures Percent(fields, data) == 100
  {
    CompletedAll(fields, data);
  }

  /** A form with no required field filled shows 0%. */
  lemma {:induction false} PercentEmpty(fields: seq<FieldSchema>, data: Record)
    requires RequiredCount(fields) > 0 && NoRequiredFilled(fields, data)
    ensures Percent(fields, data) == 0
  {
    CompletedNone(fields, data);
  }

  /**
    With fewer than 200 required fields, 100% is shown only when every required
    field is filled: one blank field out of r keeps the exact ratio below 99.5%.
   */
  lemma PercentFullOnlyWhenComplete(fields: seq<FieldSchema>, data: Record)
    requires 0 < RequiredCount(fields) < 200 && Percent(fields, data) == 100
    ensures AllRequiredFilled(fields, data)
  {
    CompletedAll(fields, data);
  }

  /**
    With at most 200 required fields, 0% is shown only when no required field is
    filled: one filled field out of r gives at least 0.5%, which rounds up.
   */
  lemma PercentEmptyOnlyWhenNoneFilled(fields: seq<FieldSchema>, data: Record)
    requires 0 < RequiredCount(fields) <= 200 && Percent(fields, data) == 0
    ensures NoRequiredFilled(fields, data)
  {
    CompletedNone(fields, data);
  }

  /** Filling in more fields never lowers the count of completed required fields. */
  lemma {:induction false} CompletedMonotone(fields: seq<FieldSchema>, before: Record, after: Record)
    requires forall n :: Filled(Lookup(before, n)) ==> Filled(Lookup(after, n))
    ensures CompletedCount(fields, before) <= CompletedCount(fields, after)
  {
    if |fields| > 0 {
      CompletedMonotone(fields[..|fields| - 1], before, after);
    }
  }
}
