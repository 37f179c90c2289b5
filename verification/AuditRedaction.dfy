/** Redacting private values from nested audit payloads. */
module AuditRedaction {
  import opened Wrappers

  const DISALLOWED_AUDIT_FIELDS: set<string> := {
    "encryption_salt", "cache_encryption_key", "password", "secret", "token", "ciphertext", "raw_payload",
    "message_text", "text", "body", "url"
  }

  const SENSITIVE_FIELD_FRAGMENTS: seq<string> := ["salt", "token", "key", "secret"]

  /** A payload value: anything but a container is a leaf; dictionaries keep their insertion order. */
  datatype Value =
    | Leaf(content: string)
    | Dict(fields: seq<Field>)
    | List(items: seq<Value>)
    | Tuple(items: seq<Value>)

  datatype Field = Field(key: string, value: Value)

  const MARKER := Leaf("[REDACTED_CHANGED]")

  // ----- Which fields are private -----

  /**
   * Besides A to Z, exactly two characters have ASCII in their lower case: the Kelvin sign and the dotted
   * capital I. No other character's lower case can match a private name, so it is kept as it is.
   */
  function LowerChar(c: char): string {
    if 'A' <= c <= 'Z' then [c - 'A' + 'a']
    else if c == '\U{212A}' then "k"
    else if c == '\U{0130}' then "i\U{0307}"
    else [c]
  }

  function Lower(s: string): string {
    if s == "" then "" else LowerChar(s[0]) + Lower(s[1..])
  }

  /** `fragment` occurs somewhere in `s`. */
  predicate Contains(s: string, fragment: string) {
    fragment <= s || (s != "" && Contains(s[1..], fragment))
  }

  predicate IsSensitive(key: string) {
    Lower(key) in DISALLOWED_AUDIT_FIELDS
    || exists i :: 0 <= i < |SENSITIVE_FIELD_FRAGMENTS| && Contains(Lower(key), SENSITIVE_FIELD_FRAGMENTS[i])
  }

  lemma {:induction false} LowerConcat(a: string, b: string)
    ensures Lower(a + b) == Lower(a) + Lower(b)
  {
    if a == "" {
      assert a + b == b;
    } else {
      assert (a + b)[1..] == a[1..] + b;
      LowerConcat(a[1..], b);
    }
  }

  lemma {:induction false} ContainsMiddle(before: string, fragment: string, after: string)
    ensures Contains(before + fragment + after, fragment)
  {
    if before == "" {
      assert before + fragment + after == fragment + after;
    } else {
      assert (before + fragment + after)[1..] == before[1..] + fragment + after;
      ContainsMiddle(before[1..], fragment, after);
    }
  }

  /** A key naming a credential anywhere in it is private, in whatever case it is written. */
  lemma {:induction false} CredentialNamesAreSensitive(before: string, written: string, after: string)
    requires Lower(written) in SENSITIVE_FIELD_FRAGMENTS
    ensures IsSensitive(before + written + after)
  {
    LowerConcat(before + written, after);
    LowerConcat(before, written);
    ContainsMiddle(Lower(before), Lower(written), Lower(after));
  }

  // ----- Redaction -----

  function SanitizeValue(value: Value): Value
    decreases value
  {
    match value
    case Leaf(_) => value
    case Dict(fields) => Dict(SanitizeFields(fields))
    case List(items) => List(SanitizeItems(items))
    case Tuple(items) => Tuple(SanitizeItems(items))
  }

  function SanitizeField(field: Field): Field
    decreases field
  {
    if IsSensitive(field.key) then Field(field.key, MARKER) else Field(field.key, SanitizeValue(field.value))
  }

  function SanitizeFields(fields: seq<Field>): (sanitized: seq<Field>)
    ensures |sanitized| == |fields| && forall i :: 0 <= i < |fields| ==> sanitized[i] == SanitizeField(fields[i])
    decreases fields
  {
    if fields == [] then []
    else
      var last := |fields| - 1;
      SanitizeFields(fields[..last]) + [SanitizeField(fields[last])]
  }

  function SanitizeItems(items: seq<Value>): (sanitized: seq<Value>)
    ensures |sanitized| == |items| && forall i :: 0 <= i < |items| ==> sanitized[i] == SanitizeValue(items[i])
    decreases items
  {
    if items == [] then []
    else
      var last := |items| - 1;
      SanitizeItems(items[..last]) + [SanitizeValue(items[last])]
  }

  /** No changes stay no changes; otherwise a fresh mapping is filled field by field. */
  method SanitizeAuditChanges(changes: Option<seq<Field>>) returns (sanitized: Option<seq<Field>>)
    ensures sanitized.Some? <==> changes.Some?
    ensures changes.Some? ==> sanitized.value == SanitizeFields(changes.value)
  {
    if changes.None? || changes.value == [] { return changes; }
    var filled: seq<Field> := [];
    for n := 0 to |changes.value|
      invariant filled == SanitizeFields(changes.value[..n])
    {
      var field := changes.value[n];
      assert changes.value[..n + 1][..n] == changes.value[..n];
      if IsSensitive(field.key) {
        filled := filled + [Field(field.key, MARKER)];
      } else {
        filled := filled + [Field(field.key, SanitizeValue(field.value))];
      }
    }
    assert changes.value[..|changes.value|] == changes.value;
    return Some(filled);
  }

  // ----- What redaction guarantees -----

  /** Every private field at any depth holds the marker. */
  predicate Redacted(value: Value)
    decreases value
  {
    match value
    case Leaf(_) => true
    case Dict(fields) =>
      forall i :: 0 <= i < |fields| ==>
        if IsSensitive(fields[i].key) then fields[i].value == MARKER else Redacted(fields[i].value)
    case List(items) => forall i :: 0 <= i < |items| ==> Redacted(items[i])
    case Tuple(items) => forall i :: 0 <= i < |items| ==> Redacted(items[i])
  }

  /** The values differ at most in what private fields hold: same containers, keys, order and public leaves. */
  predicate SameButPrivate(a: Value, b: Value)
    decreases a
  {
    match a
    case Leaf(content) => b == a
    case Dict(fields) =>
      b.Dict? && |b.fields| == |fields| &&
      forall i :: 0 <= i < |fields| ==>
        && b.fields[i].key == fields[i].key
        && (IsSensitive(fields[i].key) || SameButPrivate(fields[i].value, b.fields[i].value))
    case List(items) =>
      b.List? && |b.items| == |items| && forall i :: 0 <= i < |items| ==> SameButPrivate(items[i], b.items[i])
    case Tuple(items) =>
      b.Tuple? && |b.items| == |items| && forall i :: 0 <= i < |items| ==> SameButPrivate(items[i], b.items[i])
  }

  /** Redaction leaves the marker in every private field and changes nothing else. */
  lemma {:induction false} SanitizeRedactsOnlyPrivate(value: Value)
    ensures Redacted(SanitizeValue(value)) && SameButPrivate(value, SanitizeValue(value))
    decreases value
  {
    hide IsSensitive;
    match value {
      case Leaf(_) =>
      case Dict(fields) =>
        forall i | 0 <= i < |fields|
          ensures Redacted(SanitizeValue(fields[i].value))
          ensures SameButPrivate(fields[i].value, SanitizeValue(fields[i].value))
        {
          SanitizeRedactsOnlyPrivate(fields[i].value);
        }
      case List(items) =>
        forall i | 0 <= i < |items|
          ensures Redacted(SanitizeValue(items[i])) && SameButPrivate(items[i], SanitizeValue(items[i]))
        {
          SanitizeRedactsOnlyPrivate(items[i]);
        }
      case Tuple(items) =>
        forall i | 0 <= i < |items|
          ensures Redacted(SanitizeValue(items[i])) && SameButPrivate(items[i], SanitizeValue(items[i]))
        {
          SanitizeRedactsOnlyPrivate(items[i]);
        }
    }
  }

  /** Redaction forgets exactly the private values: payloads come out equal when and only when they agree otherwise. */
  lemma {:induction false} SanitizeForgetsExactlyPrivate(a: Value, b: Value)
    ensures SanitizeValue(a) == SanitizeValue(b) <==> SameButPrivate(a, b)
    decreases a
  {
    hide IsSensitive;
    match a {
      case Leaf(_) =>
      case Dict(fields) =>
        if b.Dict? && |b.fields| == |fields| {
          forall i | 0 <= i < |fields|
            ensures SanitizeValue(fields[i].value) == SanitizeValue(b.fields[i].value) <==>
              SameButPrivate(fields[i].value, b.fields[i].value)
          {
            SanitizeForgetsExactlyPrivate(fields[i].value, b.fields[i].value);
          }
          FieldsAgree(fields, b.fields);
        }
      case List(items) =>
        if b.List? && |b.items| == |items| { ItemsForget(items, b.items); }
      case Tuple(items) =>
        if b.Tuple? && |b.items| == |items| { ItemsForget(items, b.items); }
    }
  }

  lemma {:induction false} ItemsForget(a: seq<Value>, b: seq<Value>)
    requires |a| == |b|
    ensures SanitizeItems(a) == SanitizeItems(b) <==> forall i :: 0 <= i < |a| ==> SameButPrivate(a[i], b[i])
    decreases a
  {
    forall i | 0 <= i < |a| ensures SanitizeValue(a[i]) == SanitizeValue(b[i]) <==> SameButPrivate(a[i], b[i]) {
      SanitizeForgetsExactlyPrivate(a[i], b[i]);
    }
    if SanitizeItems(a) == SanitizeItems(b) {
      forall i | 0 <= i < |a| ensures SameButPrivate(a[i], b[i]) {
        assert SanitizeItems(a)[i] == SanitizeItems(b)[i];
      }
    }
  }

  lemma FieldsAgree(a: seq<Field>, b: seq<Field>)
    requires |a| == |b|
    ensures SanitizeFields(a) == SanitizeFields(b) <==>
      forall i :: 0 <= i < |a| ==> SanitizeField(a[i]) == SanitizeField(b[i])
  {
    if SanitizeFields(a) == SanitizeFields(b) {
      forall i | 0 <= i < |a| ensures SanitizeField(a[i]) == SanitizeField(b[i]) {
        assert SanitizeFields(a)[i] == SanitizeFields(b)[i];
      }
    }
  }

  /** Sanitizing again changes nothing. */
  lemma SanitizeIsIdempotent(value: Value)
    ensures SanitizeValue(SanitizeValue(value)) == SanitizeValue(value)
  {
    SanitizeRedactsOnlyPrivate(value);
    SanitizeForgetsExactlyPrivate(value, SanitizeValue(value));
  }

  lemma {:induction false} ContainsExactly(s: string, fragment: string)
    ensures Contains(s, fragment) <==> exists before, after :: s == before + fragment + after
  {
    if fragment <= s {
      assert s == "" + fragment + s[|fragment|..];
    } else if s != "" {
      ContainsExactly(s[1..], fragment);
      if before, after :| s[1..] == before + fragment + after {
        assert s == ([s[0]] + before) + fragment + after;
      }
      if before, after :| s == before + fragment + after {
        assert before != "";
        assert s[1..] == before[1..] + fragment + after;
      }
    }
  }

  /** The key's lower case has this text somewhere in it. */
  ghost predicate Mentions(key: string, text: string) {
    exists before, after :: Lower(key) == before + text + after
  }

  /** Private keys are the eleven names in any case, whatever mentions one of four fragments, and no others. */
  lemma {:induction false} PrivateExactly(key: string)
    ensures IsSensitive(key) <==>
      || Lower(key) in {
           "encryption_salt", "cache_encryption_key", "password", "secret", "token", "ciphertext", "raw_payload",
           "message_text", "text", "body", "url"}
      || Mentions(key, "salt") || Mentions(key, "token") || Mentions(key, "key") || Mentions(key, "secret")
  {
    ContainsExactly(Lower(key), "salt");
    ContainsExactly(Lower(key), "token");
    ContainsExactly(Lower(key), "key");
    ContainsExactly(Lower(key), "secret");
    hide Lower, Contains;
    assert SENSITIVE_FIELD_FRAGMENTS[0] == "salt" && SENSITIVE_FIELD_FRAGMENTS[1] == "token";
    assert SENSITIVE_FIELD_FRAGMENTS[2] == "key" && SENSITIVE_FIELD_FRAGMENTS[3] == "secret";
  }

  /** A lower-case letter as a capital; for k also as the Kelvin sign. */
  predicate WrittenAs(c: char, written: char) {
    written == c || ('a' <= c <= 'z' && written == c - 'a' + 'A') || (c == 'k' && written == '\U{212A}')
  }

  /** A name of small letters and underscores is recognised in every mixture of cases. */
  lemma {:induction false} AnyCaseReadsTheSame(name: string, written: string)
    requires forall i :: 0 <= i < |name| ==> 'a' <= name[i] <= 'z' || name[i] == '_'
    requires |written| == |name| && forall i :: 0 <= i < |name| ==> WrittenAs(name[i], written[i])
    ensures Lower(written) == name
  {
    if name != "" {
      AnyCaseReadsTheSame(name[1..], written[1..]);
      assert LowerChar(written[0]) == [name[0]];
      assert name == [name[0]] + name[1..];
    }
  }

  /** The dotted capital I is read with its dot, so it never spells a private name. */
  lemma DottedCapitalKeepsItsDot()
    ensures Lower("\U{0130}") == "i\U{0307}"
  {
    assert "\U{0130}"[1..] == "";
  }
}
