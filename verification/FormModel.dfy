/**
  The data model of the dynamic form: field schemas as the schema source
  describes them, the string maps the form keeps its values, errors and
  records in, and JavaScript's `String.prototype.trim`, which decides whether
  a value counts as filled in.
 */
module FormModel {

  datatype Option<+T> = None | Some(value: T)

  /** The `type` of an input; the engine itself only looks for `Number` and `Date`. */
  datatype FieldKind = Text | Number | Date | Password | Dropdown

  /** One input of a form: `{ name, type, label, required, options }`. */
  datatype FieldSchema = FieldSchema(
    name: string,
    kind: FieldKind,
    caption: string,  // the schema's `label`
    required: bool,
    options: seq<string>)

  /** Field name to raw value: the in-progress form data and every submitted record. */
  type Record = map<string, string>

  /** Field name to error message. */
  type Errors = map<string, string>

  /** Form type to the records submitted for it, in order. */
  type Store = map<string, seq<Record>>

  /** `formData[name]`: the value, or `None` when the key is absent (`undefined`). */
  function Lookup(data: Record, name: string): Option<string>
  {
    if name in data then Some(data[name]) else None
  }

  /** The field names a schema declares. */
  function Names(fields: seq<FieldSchema>): set<string>
  {
    set f | f in fields :: f.name
  }

  /** A well-formed schema has no two fields with the same name. */
  predicate UniqueNames(fields: seq<FieldSchema>)
  {
    forall i, j :: 0 <= i < j < |fields| ==> fields[i].name != fields[j].name
  }

  /** A well-formed schema lists options exactly for its dropdowns. */
  predicate OptionsOnlyForDropdowns(fields: seq<FieldSchema>)
  {
    forall i :: 0 <= i < |fields| ==> (fields[i].kind == Dropdown <==> fields[i].options != [])
  }

  /**
    The characters `trim` removes: the ECMAScript WhiteSpace characters (tab,
    vertical tab, form feed, space, no-break space, byte-order mark and the
    other space separators) and the LineTerminator characters.
   */
  predicate IsWhitespace(c: char)
  {
    || c == '\t' || c == '\n' || c == '\U{B}' || c == '\U{C}' || c == '\r' || c == ' '
    || c == '\U{A0}' || c == '\U{1680}' || ('\U{2000}' <= c <= '\U{200A}')
    || c == '\U{2028}' || c == '\U{2029}' || c == '\U{202F}' || c == '\U{205F}'
    || c == '\U{3000}' || c == '\U{FEFF}'
  }

  predicate AllWhitespace(s: string)
  {
    forall i :: 0 <= i < |s| ==> IsWhitespace(s[i])
  }

  /** `s` without its leading whitespace. */
  function TrimStart(s: string): (r: string)
    ensures |r| <= |s|
    ensures r == [] || !IsWhitespace(r[0])
  {
    if |s| > 0 && IsWhitespace(s[0]) then TrimStart(s[1..]) else s
  }

  /** `s` without its trailing whitespace; a string that starts with a non-blank keeps it. */
  function TrimEnd(s: string): (r: string)
    ensures |r| <= |s|
    ensures r == [] || !IsWhitespace(r[|r| - 1])
    ensures |s| > 0 && !IsWhitespace(s[0]) ==> |r| > 0
    ensures |r| > 0 ==> r[0] == s[0]
  {
    if |s| > 0 && IsWhitespace(s[|s| - 1]) then TrimEnd(s[..|s| - 1]) else s
  }

  /** `s.trim()`: no longer than `s`, and neither starting nor ending with whitespace. */
  function Trim(s: string): (r: string)
    ensures |r| <= |s|
    ensures r == [] || (!IsWhitespace(r[0]) && !IsWhitespace(r[|r| - 1]))
  {
    TrimEnd(TrimStart(s))
  }

  /**
    `trim` only cuts: what it keeps is a piece of `s`, everything cut before and
    after it is whitespace, and the piece neither starts nor ends with whitespace.
   */
  lemma {:induction false} TrimIsInfix(s: string)
    ensures var k := |s| - |TrimStart(s)|;
            var n := |Trim(s)|;
            && k + n <= |s| && Trim(s) == s[k..k + n]
            && AllWhitespace(s[..k]) && AllWhitespace(s[k + n..])
            && (n > 0 ==> !IsWhitespace(Trim(s)[0]) && !IsWhitespace(Trim(s)[n - 1]))
  {
    TrimStartIsSuffix(s);
    TrimStartCutsWhitespace(s);
    var u := TrimStart(s);
    TrimEndIsPrefix(u);
    TrimEndCutsWhitespace(u);
    var t := TrimEnd(u);
    var k := |s| - |u|;
    assert t == u[..|t|] && u == s[k..];
    assert t == s[k..k + |t|];
    assert s[k + |t|..] == u[|t|..];
  }

  lemma {:induction false} TrimStartIsSuffix(s: string)
    ensures TrimStart(s) == s[|s| - |TrimStart(s)|..]
  {
    if |s| > 0 && IsWhitespace(s[0]) {
      TrimStartIsSuffix(s[1..]);
    }
  }

  lemma {:induction false} TrimEndIsPrefix(s: string)
    ensures TrimEnd(s) == s[..|TrimEnd(s)|]
  {
    if |s| > 0 && IsWhitespace(s[|s| - 1]) {
      TrimEndIsPrefix(s[..|s| - 1]);
    }
  }

  /** What `TrimStart` cuts is whitespace. */
  lemma {:induction false} TrimStartCutsWhitespace(s: string)
    ensures AllWhitespace(s[..|s| - |TrimStart(s)|])
  {
    if |s| > 0 && IsWhitespace(s[0]) {
      var tail := s[1..];
      TrimStartCutsWhitespace(tail);
      var k := |s| - |TrimStart(s)|;
      forall i | 0 <= i < k ensures IsWhitespace(s[..k][i]) {
        if i > 0 { assert s[..k][i] == tail[..k - 1][i - 1]; }
      }
    }
  }

  /** What `TrimEnd` cuts is whitespace. */
  lemma {:induction false} TrimEndCutsWhitespace(s: string)
    ensures AllWhitespace(s[|TrimEnd(s)|..])
  {
    if |s| > 0 && IsWhitespace(s[|s| - 1]) {
      var init := s[..|s| - 1];
      TrimEndCutsWhitespace(init);
      var n := |TrimEnd(s)|;
      forall j | 0 <= j < |s| - n ensures IsWhitespace(s[n..][j]) {
        if j < |s| - 1 - n { assert s[n..][j] == init[n..][j]; }
      }
    }
  }

  lemma {:induction false} TrimStartEmpty(s: string)
    ensures TrimStart(s) == [] <==> AllWhitespace(s)
  {
    if |s| == 0 {
    } else if IsWhitespace(s[0]) {
      var tail := s[1..];
      TrimStartEmpty(tail);
      if AllWhitespace(tail) {
        forall i | 0 <= i < |s| ensures IsWhitespace(s[i]) {
          if i > 0 { assert s[i] == tail[i - 1]; }
        }
      } else {
        var j :| 0 <= j < |tail| && !IsWhitespace(tail[j]);
        assert s[j + 1] == tail[j];
      }
    } else {
      assert !IsWhitespace(s[0]);
    }
  }

  /** `s.trim() === ""` exactly when every character of `s` is whitespace. */
  lemma TrimEmpty(s: string)
    ensures Trim(s) == [] <==> AllWhitespace(s)
  {
    TrimStartEmpty(s);
  }

  /** A truthy value in JavaScript: present and not the empty string. */
  predicate Truthy(v: Option<string>)
  {
    v.Some? && v.value != ""
  }

  /** `value && value.trim() !== ""`: present and not blank. */
  predicate Filled(v: Option<string>)
  {
    Truthy(v) && Trim(v.value) != ""
  }

  /** A value is filled exactly when it is present and holds a non-whitespace character. */
  lemma FilledMeansNonBlank(v: Option<string>)
    ensures Filled(v) <==> v.Some? && exists i :: 0 <= i < |v.value| && !IsWhitespace(v.value[i])
  {
    if v.Some? {
      TrimEmpty(v.value);
    }
  }
}
