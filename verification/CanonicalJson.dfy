/**
 The key-sorting JSON printer that request hashing relies on. Texts are
 sequences of UTF-16 code units, as in the original. A number is carried by the
 text it prints as, so number printing is injective by construction.
 */
module CanonicalJson {
  import opened Options

  type Text = seq<int>

  datatype Json =
    | Null
    | Bool(value: bool)
    | Number(digits: Text)
    | String(units: Text)
    | Array(items: seq<Json>)
    | Object(fields: seq<Field>)

  datatype Field = Field(key: Text, value: Json)

  const QUOTE := 0x22
  const BACKSLASH := 0x5C
  const COMMA := 0x2C
  const COLON := 0x3A
  const OPEN_BRACKET := 0x5B
  const CLOSE_BRACKET := 0x5D
  const OPEN_BRACE := 0x7B
  const CLOSE_BRACE := 0x7D

  /** Digits, sign, point and exponent letters. */
  predicate NumberUnit(c: int) {
    0x30 <= c <= 0x39 || c == 0x2D || c == 0x2B || c == 0x2E || c == 0x65 || c == 0x45
  }

  predicate NumberText(s: Text) {
    s != [] && forall i :: 0 <= i < |s| ==> NumberUnit(s[i])
  }

  predicate StringText(s: Text) {
    forall i :: 0 <= i < |s| ==> 0 <= s[i] <= 0xFFFF
  }

  predicate DistinctKeys(fields: seq<Field>) {
    forall i, j :: 0 <= i < j < |fields| ==> fields[i].key != fields[j].key
  }

  /** A value that a JSON request body can hold. */
  predicate WellFormed(v: Json) {
    match v
    case Null => true
    case Bool(_) => true
    case Number(digits) => NumberText(digits)
    case String(units) => StringText(units)
    case Array(items) => forall i :: 0 <= i < |items| ==> WellFormed(items[i])
    case Object(fields) =>
      DistinctKeys(fields) && forall i :: 0 <= i < |fields| ==> StringText(fields[i].key) && WellFormed(fields[i].value)
  }

  predicate HasKey(fields: seq<Field>, key: Text) {
    exists i :: 0 <= i < |fields| && fields[i].key == key
  }

  /** Equal up to the order of object keys, at every depth: the reference. */
  ghost predicate Equivalent(a: Json, b: Json)
    decreases a, 1
  {
    if a.Array? && b.Array? then
      |a.items| == |b.items| && forall i :: 0 <= i < |a.items| ==> Equivalent(a.items[i], b.items[i])
    else if a.Object? && b.Object? then
      && (forall i :: 0 <= i < |a.fields| ==> HasMatch(a.fields[i], b.fields))
      && (forall j :: 0 <= j < |b.fields| ==> HasKey(a.fields, b.fields[j].key))
    else a == b
  }

  ghost predicate HasMatch(f: Field, fields: seq<Field>)
    decreases f, 0
  {
    exists j :: 0 <= j < |fields| && f.key == fields[j].key && Equivalent(f.value, fields[j].value)
  }

  // ---------- strings, as section 7 of RFC 8259 escapes them ----------

  predicate Lead(c: int) {
    0xD800 <= c <= 0xDBFF
  }

  predicate Trail(c: int) {
    0xDC00 <= c <= 0xDFFF
  }

  function HexDigit(d: int): int {
    if d < 10 then 0x30 + d else 0x57 + d
  }

  function HexValue(c: int): int {
    if c < 0x3A then c - 0x30 else c - 0x57
  }

  function UnicodeEscape(c: int): Text {
    [BACKSLASH, 0x75, HexDigit(c / 0x1000 % 0x10), HexDigit(c / 0x100 % 0x10), HexDigit(c / 0x10 % 0x10), HexDigit(c % 0x10)]
  }

  function EscapeUnit(c: int): Text {
    if c == 0x08 then [BACKSLASH, 0x62]
    else if c == 0x09 then [BACKSLASH, 0x74]
    else if c == 0x0A then [BACKSLASH, 0x6E]
    else if c == 0x0C then [BACKSLASH, 0x66]
    else if c == 0x0D then [BACKSLASH, 0x72]
    else if c == QUOTE || c == BACKSLASH then [BACKSLASH, c]
    else if c < 0x20 || Lead(c) || Trail(c) then UnicodeEscape(c)
    else [c]
  }

  /** A surrogate pair is kept; a lone surrogate is escaped. */
  function Escaped(s: Text): Text {
    if s == [] then []
    else if |s| > 1 && Lead(s[0]) && Trail(s[1]) then [s[0], s[1]] + Escaped(s[2..])
    else EscapeUnit(s[0]) + Escaped(s[1..])
  }

  function Quoted(s: Text): Text {
    [QUOTE] + Escaped(s) + [QUOTE]
  }

  // ---------- sorting keys ----------

  /** `Array.prototype.sort` on strings: by code units. */
  predicate Less(a: Text, b: Text) {
    if b == [] then false
    else if a == [] then true
    else a[0] < b[0] || (a[0] == b[0] && Less(a[1..], b[1..]))
  }

  lemma {:induction false} LessTotal(a: Text, b: Text)
    ensures a == b || Less(a, b) || Less(b, a)
    ensures !(Less(a, b) && Less(b, a)) && !Less(a, a)
  {
    if a != [] && b != [] {
      LessTotal(a[1..], b[1..]);
      assert a == [a[0]] + a[1..] && b == [b[0]] + b[1..];
    }
    if a != [] {
      LessTotal(a[1..], a[1..]);
    }
  }

  lemma {:induction false} LessTransitive(a: Text, b: Text, c: Text)
    requires Less(a, b) && Less(b, c)
    ensures Less(a, c)
  {
    if a != [] && a[0] == b[0] == c[0] {
      LessTransitive(a[1..], b[1..], c[1..]);
    }
  }

  /** After `i` equal units, `a` ends or has the smaller unit. */
  predicate DiffersAt(a: Text, b: Text, i: int) {
    0 <= i < |b| && i <= |a| && a[..i] == b[..i] && (i == |a| || a[i] < b[i])
  }

  ghost predicate ByCodeUnits(a: Text, b: Text) {
    exists i :: DiffersAt(a, b, i)
  }

  /** The order is that of the first code unit where the two differ, a prefix coming first. */
  lemma {:induction false} LessIff(a: Text, b: Text)
    ensures Less(a, b) <==> ByCodeUnits(a, b)
  {
    if b == [] {
    } else if a == [] || a[0] < b[0] {
      assert DiffersAt(a, b, 0);
    } else {
      LessIff(a[1..], b[1..]);
      if Less(a, b) {
        var i :| DiffersAt(a[1..], b[1..], i);
        assert a[..i + 1] == [a[0]] + a[1..][..i] && b[..i + 1] == [b[0]] + b[1..][..i];
        assert DiffersAt(a, b, i + 1);
      }
      if exists i :: DiffersAt(a, b, i) {
        var i :| DiffersAt(a, b, i);
        assert a[..i][0] == a[0] && b[..i][0] == b[0];
        assert a[1..][..i - 1] == a[..i][1..] && b[1..][..i - 1] == b[..i][1..];
        assert DiffersAt(a[1..], b[1..], i - 1);
      }
    }
  }

  function Insert(f: Field, sorted: seq<Field>): seq<Field> {
    if sorted == [] || Less(f.key, sorted[0].key) then [f] + sorted
    else [sorted[0]] + Insert(f, sorted[1..])
  }

  function Sort(fields: seq<Field>): seq<Field> {
    if fields == [] then [] else Insert(fields[0], Sort(fields[1..]))
  }

  predicate Sorted(fields: seq<Field>) {
    forall i, j :: 0 <= i < j < |fields| ==> Less(fields[i].key, fields[j].key)
  }

  // ---------- the printer ----------

  function Size(v: Json): nat {
    match v
    case Array(items) => 1 + ItemsSize(items)
    case Object(fields) => 1 + FieldsSize(fields)
    case _ => 1
  }

  function ItemsSize(items: seq<Json>): nat {
    if items == [] then 0 else Size(items[0]) + ItemsSize(items[1..])
  }

  function FieldsSize(fields: seq<Field>): nat {
    if fields == [] then 0 else Size(fields[0].value) + FieldsSize(fields[1..])
  }

  lemma {:induction false} InsertSize(f: Field, sorted: seq<Field>)
    ensures FieldsSize(Insert(f, sorted)) == Size(f.value) + FieldsSize(sorted)
  {
    if !(sorted == [] || Less(f.key, sorted[0].key)) {
      InsertSize(f, sorted[1..]);
      assert Insert(f, sorted)[1..] == Insert(f, sorted[1..]);
    } else {
      assert ([f] + sorted)[1..] == sorted;
    }
  }

  lemma {:induction false} SortSize(fields: seq<Field>)
    ensures FieldsSize(Sort(fields)) == FieldsSize(fields)
  {
    if fields != [] {
      SortSize(fields[1..]);
      InsertSize(fields[0], Sort(fields[1..]));
    }
  }

  lemma {:induction false} Positive(v: Json)
    ensures Size(v) > 0
  {
  }

  const NULL_TEXT: Text := [0x6E, 0x75, 0x6C, 0x6C]
  const TRUE_TEXT: Text := [0x74, 0x72, 0x75, 0x65]
  const FALSE_TEXT: Text := [0x66, 0x61, 0x6C, 0x73, 0x65]

  /** `stableStringify`. */
  function StableStringify(v: Json): Text
    decreases Size(v), 1
  {
    match v
    case Null => NULL_TEXT
    case Bool(b) => if b then TRUE_TEXT else FALSE_TEXT
    case Number(digits) => digits
    case String(units) => Quoted(units)
    case Array(items) => [OPEN_BRACKET] + StableItems(items) + [CLOSE_BRACKET]
    case Object(fields) =>
      SortSize(fields);
      [OPEN_BRACE] + StableFields(Sort(fields)) + [CLOSE_BRACE]
  }

  function StableItems(items: seq<Json>): Text
    decreases ItemsSize(items), 2, |items|
  {
    if items == [] then []
    else
      Positive(items[0]);
      StableStringify(items[0]) + if |items| == 1 then [] else [COMMA] + StableItems(items[1..])
  }

  function StableFields(fields: seq<Field>): Text
    decreases FieldsSize(fields), 2, |fields|
  {
    if fields == [] then []
    else
      Positive(fields[0].value);
      Quoted(fields[0].key) + [COLON] + StableStringify(fields[0].value)
      + if |fields| == 1 then [] else [COMMA] + StableFields(fields[1..])
  }

  // ---------- the canonical value, and plain printing ----------

  function Canonical(v: Json): Json
    decreases Size(v), 1
  {
    match v
    case Array(items) => Array(CanonicalItems(items))
    case Object(fields) => SortSize(fields); Object(CanonicalFields(Sort(fields)))
    case _ => v
  }

  function CanonicalItems(items: seq<Json>): (r: seq<Json>)
    ensures |r| == |items|
    decreases ItemsSize(items), 2, |items|
  {
    if items == [] then []
    else
      Positive(items[0]);
      [Canonical(items[0])] + CanonicalItems(items[1..])
  }

  function CanonicalFields(fields: seq<Field>): (r: seq<Field>)
    ensures |r| == |fields|
    decreases FieldsSize(fields), 2, |fields|
  {
    if fields == [] then []
    else
      Positive(fields[0].value);
      [Field(fields[0].key, Canonical(fields[0].value))] + CanonicalFields(fields[1..])
  }

  function Print(v: Json): Text {
    match v
    case Null => NULL_TEXT
    case Bool(b) => if b then TRUE_TEXT else FALSE_TEXT
    case Number(digits) => digits
    case String(units) => Quoted(units)
    case Array(items) => [OPEN_BRACKET] + PrintItems(items) + [CLOSE_BRACKET]
    case Object(fields) => [OPEN_BRACE] + PrintFields(fields) + [CLOSE_BRACE]
  }

  function PrintItems(items: seq<Json>): Text {
    if items == [] then []
    else Print(items[0]) + if |items| == 1 then [] else [COMMA] + PrintItems(items[1..])
  }

  function PrintFields(fields: seq<Field>): Text {
    if fields == [] then []
    else
      Quoted(fields[0].key) + [COLON] + Print(fields[0].value)
      + if |fields| == 1 then [] else [COMMA] + PrintFields(fields[1..])
  }

  /** Sorting while printing is printing the canonical value. */
  lemma {:induction false} StableIsPrint(v: Json)
    ensures StableStringify(v) == Print(Canonical(v))
    decreases Size(v), 1
  {
    match v
    case Array(items) => StableItemsPrint(items);
    case Object(fields) =>
      SortSize(fields);
      StableFieldsPrint(Sort(fields));
    case _ =>
  }

  lemma {:induction false} StableItemsPrint(items: seq<Json>)
    ensures StableItems(items) == PrintItems(CanonicalItems(items))
    decreases ItemsSize(items), 2, |items|
  {
    if items != [] {
      Positive(items[0]);
      StableIsPrint(items[0]);
      StableItemsPrint(items[1..]);
      assert CanonicalItems(items)[1..] == CanonicalItems(items[1..]);
    }
  }

  lemma {:induction false} StableFieldsPrint(fields: seq<Field>)
    ensures StableFields(fields) == PrintFields(CanonicalFields(fields))
    decreases FieldsSize(fields), 2, |fields|
  {
    if fields != [] {
      Positive(fields[0].value);
      StableIsPrint(fields[0].value);
      StableFieldsPrint(fields[1..]);
      assert CanonicalFields(fields)[1..] == CanonicalFields(fields[1..]);
    }
  }

  // ---------- sorting facts ----------

  lemma {:induction false} InsertFacts(f: Field, sorted: seq<Field>)
    ensures |Insert(f, sorted)| == |sorted| + 1
    ensures forall x :: x in Insert(f, sorted) <==> x == f || x in sorted
    ensures Sorted(sorted) && (forall i :: 0 <= i < |sorted| ==> sorted[i].key != f.key) ==> Sorted(Insert(f, sorted))
  {
    if sorted != [] {
      if Less(f.key, sorted[0].key) {
        forall j | 0 < j < |sorted| && Less(sorted[0].key, sorted[j].key) ensures Less(f.key, sorted[j].key) {
          LessTransitive(f.key, sorted[0].key, sorted[j].key);
        }
      } else {
        InsertFacts(f, sorted[1..]);
        LessTotal(f.key, sorted[0].key);
        var rest := Insert(f, sorted[1..]);
        if Sorted(sorted) && (forall i :: 0 <= i < |sorted| ==> sorted[i].key != f.key) {
          assert Sorted(sorted[1..]);
          forall k | 0 <= k < |rest| ensures Less(sorted[0].key, rest[k].key) {
            assert rest[k] in rest;
            if rest[k] != f {
              assert rest[k] in sorted[1..];
            }
          }
        }
      }
    }
  }

  lemma {:induction false} SortFacts(fields: seq<Field>)
    ensures |Sort(fields)| == |fields|
    ensures forall x :: x in Sort(fields) <==> x in fields
    ensures DistinctKeys(fields) ==> Sorted(Sort(fields))
  {
    if fields != [] {
      var rest := Sort(fields[1..]);
      SortFacts(fields[1..]);
      InsertFacts(fields[0], rest);
      assert forall x :: x in fields <==> x == fields[0] || x in fields[1..];
      if DistinctKeys(fields) {
        forall i | 0 <= i < |rest| ensures rest[i].key != fields[0].key {
          assert rest[i] in rest;
        }
      }
    }
  }

  /** Two sorted field lists with the same keys list them in the same order. */
  lemma {:induction false} SortedUnique(a: seq<Field>, b: seq<Field>)
    requires Sorted(a) && Sorted(b) && SameKeys(a, b)
    ensures |a| == |b| && forall i :: 0 <= i < |a| ==> a[i].key == b[i].key
    decreases |a|
  {
    NoKeys(a, b);
    if a != [] {
      NoKeys(b, a);
      assert HasKey(b, a[0].key) && HasKey(a, b[0].key);
      FirstKeysAgree(a, b);
      RestSameKeys(a, b);
      SortedUnique(a[1..], b[1..]);
      assert forall i :: 1 <= i < |a| ==> a[i] == a[1..][i - 1] && b[i] == b[1..][i - 1];
    }
  }

  ghost predicate SameKeys(a: seq<Field>, b: seq<Field>) {
    (forall i :: 0 <= i < |a| ==> HasKey(b, a[i].key)) && (forall j :: 0 <= j < |b| ==> HasKey(a, b[j].key))
  }

  function FirstKey(fields: seq<Field>): Text {
    if fields == [] then [] else fields[0].key
  }

  lemma NoKeys(a: seq<Field>, b: seq<Field>)
    requires SameKeys(a, b)
    ensures a == [] ==> b == []
  {
    assert b != [] ==> HasKey(a, FirstKey(b));
  }

  lemma FirstKeysAgree(a: seq<Field>, b: seq<Field>)
    requires Sorted(a) && Sorted(b) && a != [] && b != [] && HasKey(b, a[0].key) && HasKey(a, b[0].key)
    ensures a[0].key == b[0].key
  {
    var i :| 0 <= i < |b| && b[i].key == a[0].key;
    var j :| 0 <= j < |a| && a[j].key == b[0].key;
    LessTotal(a[0].key, b[0].key);
  }

  lemma RestSameKeys(a: seq<Field>, b: seq<Field>)
    requires Sorted(a) && Sorted(b) && a != [] && b != [] && SameKeys(a, b) && a[0].key == b[0].key
    ensures Sorted(a[1..]) && Sorted(b[1..]) && SameKeys(a[1..], b[1..])
  {
    RestHasKeys(a, b);
    RestHasKeys(b, a);
  }

  lemma RestHasKeys(a: seq<Field>, b: seq<Field>)
    requires Sorted(a) && a != [] && b != [] && SameKeys(a, b) && a[0].key == b[0].key
    ensures forall i :: 0 <= i < |a[1..]| ==> HasKey(b[1..], a[1..][i].key)
  {
    forall i | 0 <= i < |a[1..]| ensures HasKey(b[1..], a[1..][i].key) {
      assert HasKey(b, a[i + 1].key);
      var k :| 0 <= k < |b| && b[k].key == a[i + 1].key;
      LessTotal(a[0].key, a[i + 1].key);
      assert Less(a[0].key, a[i + 1].key);
      assert b[1..][k - 1].key == a[1..][i].key;
    }
  }

  // ---------- canonical values and equivalence ----------

  lemma {:induction false} CanonicalItemsAt(items: seq<Json>, i: nat)
    requires i < |items|
    ensures CanonicalItems(items)[i] == Canonical(items[i])
    ensures Size(items[i]) <= ItemsSize(items)
    decreases |items|
  {
    if i > 0 {
      CanonicalItemsAt(items[1..], i - 1);
    }
  }

  lemma {:induction false} CanonicalFieldsAt(fields: seq<Field>, i: nat)
    requires i < |fields|
    ensures CanonicalFields(fields)[i] == Field(fields[i].key, Canonical(fields[i].value))
    ensures Size(fields[i].value) <= FieldsSize(fields)
    decreases |fields|
  {
    if i > 0 {
      CanonicalFieldsAt(fields[1..], i - 1);
    }
  }

  /** Canonical values are equal exactly when the values are equivalent. */
  lemma {:induction false} CanonicalIff(a: Json, b: Json)
    requires WellFormed(a) && WellFormed(b)
    ensures Canonical(a) == Canonical(b) <==> Equivalent(a, b)
    decreases Size(a), 1
  {
    if a.Array? && b.Array? {
      CanonicalIffItems(a, b);
    } else if a.Object? && b.Object? {
      if Canonical(a) == Canonical(b) {
        EqualObjects(a, b);
      }
      if Equivalent(a, b) {
        EquivalentObjects(a, b);
      }
    }
  }

  lemma {:induction false} CanonicalIffItems(a: Json, b: Json)
    requires WellFormed(a) && WellFormed(b) && a.Array? && b.Array?
    ensures Canonical(a) == Canonical(b) <==> Equivalent(a, b)
    decreases Size(a), 0
  {
    hide Canonical, CanonicalItems;
    ArrayCanonical(a);
    ArrayCanonical(b);
    if |a.items| == |b.items| {
      forall i | 0 <= i < |a.items|
        ensures CanonicalItems(a.items)[i] == CanonicalItems(b.items)[i] <==> Equivalent(a.items[i], b.items[i])
      {
        CanonicalItemsAt(a.items, i);
        CanonicalItemsAt(b.items, i);
        CanonicalIff(a.items[i], b.items[i]);
      }
    }
  }

  lemma ArrayCanonical(a: Json)
    requires a.Array?
    ensures Canonical(a) == Array(CanonicalItems(a.items)) && Size(a) == 1 + ItemsSize(a.items)
  {
  }

  lemma ObjectCanonical(a: Json)
    requires a.Object? && WellFormed(a)
    ensures Canonical(a) == Object(CanonicalFields(Sort(a.fields)))
    ensures Size(a) == 1 + FieldsSize(Sort(a.fields))
    ensures |Sort(a.fields)| == |a.fields| && Sorted(Sort(a.fields)) && (forall x :: x in Sort(a.fields) <==> x in a.fields)
    ensures forall i :: 0 <= i < |Sort(a.fields)| ==> WellFormed(Sort(a.fields)[i].value) && StringText(Sort(a.fields)[i].key)
  {
    SortSize(a.fields);
    SortFacts(a.fields);
    forall i | 0 <= i < |Sort(a.fields)| ensures WellFormed(Sort(a.fields)[i].value) && StringText(Sort(a.fields)[i].key) {
      assert Sort(a.fields)[i] in a.fields;
    }
  }

  /** Equivalence of objects, one level deep. */
  lemma ObjectEquivalence(a: Json, b: Json)
    requires a.Object? && b.Object?
    ensures Equivalent(a, b) <==>
            (forall i :: 0 <= i < |a.fields| ==> HasMatch(a.fields[i], b.fields)) && (forall j :: 0 <= j < |b.fields| ==> HasKey(a.fields, b.fields[j].key))
  {
    hide HasMatch, HasKey;
  }

  /** A field that occurs has a match wherever an equivalent field occurs. */
  lemma MatchIn(f: Field, g: Field, fields: seq<Field>)
    requires g in fields && f.key == g.key && Equivalent(f.value, g.value)
    ensures HasMatch(f, fields) && HasKey(fields, f.key)
  {
    hide Equivalent;
    var j :| 0 <= j < |fields| && fields[j] == g;
  }

  lemma KeyIn(g: Field, fields: seq<Field>)
    requires g in fields
    ensures HasKey(fields, g.key)
  {
    var j :| 0 <= j < |fields| && fields[j] == g;
  }

  lemma {:induction false} EqualObjects(a: Json, b: Json)
    requires WellFormed(a) && WellFormed(b) && a.Object? && b.Object? && Canonical(a) == Canonical(b)
    ensures Equivalent(a, b)
    decreases Size(a), 0
  {
    hide Canonical, CanonicalFields, Sort, Sorted, WellFormed, Equivalent, HasMatch, HasKey, StringText;
    ObjectCanonical(a);
    ObjectCanonical(b);
    ObjectEquivalence(a, b);
    var sa, sb := Sort(a.fields), Sort(b.fields);
    assert |sa| == |sb|;
    forall i | 0 <= i < |a.fields| ensures HasMatch(a.fields[i], b.fields) {
      assert a.fields[i] in sa;
      var k :| 0 <= k < |sa| && sa[k] == a.fields[i];
      CanonicalFieldsAt(sa, k);
      CanonicalFieldsAt(sb, k);
      CanonicalIff(sa[k].value, sb[k].value);
      assert sb[k] in b.fields;
      MatchIn(a.fields[i], sb[k], b.fields);
    }
    forall j | 0 <= j < |b.fields| ensures HasKey(a.fields, b.fields[j].key) {
      assert b.fields[j] in sb;
      var k :| 0 <= k < |sb| && sb[k] == b.fields[j];
      CanonicalFieldsAt(sa, k);
      CanonicalFieldsAt(sb, k);
      assert sa[k] in a.fields;
      KeyIn(sa[k], a.fields);
    }
  }

  /** Field by field, the sorted lists of equivalent objects match. */
  lemma SortedMatch(a: Json, b: Json, k: nat)
    requires WellFormed(a) && WellFormed(b) && a.Object? && b.Object? && Equivalent(a, b) && k < |Sort(a.fields)|
    ensures |Sort(a.fields)| == |Sort(b.fields)|
    ensures Sort(a.fields)[k].key == Sort(b.fields)[k].key && Equivalent(Sort(a.fields)[k].value, Sort(b.fields)[k].value)
  {
    hide Canonical, CanonicalFields, Sort, Sorted, WellFormed, Equivalent, HasKey, StringText, Less;
    ObjectCanonical(a);
    ObjectCanonical(b);
    ObjectEquivalence(a, b);
    var sa, sb := Sort(a.fields), Sort(b.fields);
    EquivalentKeys(a, b);
    SortedUnique(sa, sb);
    assert sa[k] in a.fields;
    assert HasMatch(sa[k], b.fields);
    var j :| 0 <= j < |b.fields| && sa[k].key == b.fields[j].key && Equivalent(sa[k].value, b.fields[j].value);
    assert b.fields[j] in sb;
    var m :| 0 <= m < |sb| && sb[m] == b.fields[j];
    SameKeySamePlace(sb, m, k);
  }

  lemma SameKeySamePlace(s: seq<Field>, m: nat, k: nat)
    requires Sorted(s) && m < |s| && k < |s| && s[m].key == s[k].key
    ensures m == k
  {
    LessTotal(s[m].key, s[k].key);
  }

  lemma EquivalentKeys(a: Json, b: Json)
    requires WellFormed(a) && WellFormed(b) && a.Object? && b.Object? && Equivalent(a, b)
    ensures SameKeys(Sort(a.fields), Sort(b.fields))
  {
    hide Canonical, CanonicalFields, Sort, Sorted, WellFormed, Equivalent, StringText;
    ObjectCanonical(a);
    ObjectCanonical(b);
    ObjectEquivalence(a, b);
    var sa, sb := Sort(a.fields), Sort(b.fields);
    forall k | 0 <= k < |sa| ensures HasKey(sb, sa[k].key) {
      assert sa[k] in a.fields && HasMatch(sa[k], b.fields);
      var j :| 0 <= j < |b.fields| && sa[k].key == b.fields[j].key;
      assert b.fields[j] in sb;
      KeyIn(b.fields[j], sb);
    }
    forall k | 0 <= k < |sb| ensures HasKey(sa, sb[k].key) {
      assert sb[k] in b.fields && HasKey(a.fields, sb[k].key);
      var i :| 0 <= i < |a.fields| && a.fields[i].key == sb[k].key;
      assert a.fields[i] in sa;
      KeyIn(a.fields[i], sa);
    }
  }

  lemma {:induction false} EquivalentObjects(a: Json, b: Json)
    requires WellFormed(a) && WellFormed(b) && a.Object? && b.Object? && Equivalent(a, b)
    ensures Canonical(a) == Canonical(b)
    decreases Size(a), 0
  {
    hide Canonical, CanonicalFields, Sort, Sorted, WellFormed, Equivalent;
    ObjectCanonical(a);
    ObjectCanonical(b);
    var sa, sb := Sort(a.fields), Sort(b.fields);
    EquivalentKeys(a, b);
    SortedUnique(sa, sb);
    forall k | 0 <= k < |sa| ensures CanonicalFields(sa)[k] == CanonicalFields(sb)[k] {
      SortedMatch(a, b, k);
      CanonicalFieldsAt(sa, k);
      CanonicalFieldsAt(sb, k);
      CanonicalIff(sa[k].value, sb[k].value);
    }
    assert CanonicalFields(sa) == CanonicalFields(sb);
  }

  // ---------- reading printed text ----------

  datatype Parsed<+T> = Parsed(item: T, rest: Text)

  function SimpleEscape(c: int): int {
    if c == 0x62 then 0x08
    else if c == 0x74 then 0x09
    else if c == 0x6E then 0x0A
    else if c == 0x66 then 0x0C
    else if c == 0x72 then 0x0D
    else c
  }

  /** The inside of a string, up to its closing quote. */
  function ReadString(s: Text): (r: Option<Parsed<Text>>)
    ensures r.Some? ==> |r.value.rest| < |s|
  {
    if s == [] then None
    else if s[0] == QUOTE then Some(Parsed([], s[1..]))
    else if s[0] != BACKSLASH then Prepend(s[0], ReadString(s[1..]))
    else if |s| >= 6 && s[1] == 0x75 then
      Prepend(((HexValue(s[2]) * 0x10 + HexValue(s[3])) * 0x10 + HexValue(s[4])) * 0x10 + HexValue(s[5]), ReadString(s[6..]))
    else if |s| >= 2 then Prepend(SimpleEscape(s[1]), ReadString(s[2..]))
    else None
  }

  function Prepend(c: int, more: Option<Parsed<Text>>): (r: Option<Parsed<Text>>)
    ensures r.Some? <==> more.Some?
    ensures r.Some? ==> r.value == Parsed([c] + more.value.item, more.value.rest)
  {
    if more.None? then None else Some(Parsed([c] + more.value.item, more.value.rest))
  }

  function ReadNumber(s: Text): (r: Parsed<Text>)
    ensures |r.rest| + |r.item| == |s|
  {
    if s == [] || !NumberUnit(s[0]) then Parsed([], s)
    else
      var more := ReadNumber(s[1..]);
      Parsed([s[0]] + more.item, more.rest)
  }

  function ReadValue(s: Text): (r: Option<Parsed<Json>>)
    ensures r.Some? ==> |r.value.rest| < |s|
    decreases |s|, 0
  {
    if s == [] then None
    else if s[0] == 0x6E then (if NULL_TEXT <= s then Some(Parsed(Null, s[4..])) else None)
    else if s[0] == 0x74 then (if TRUE_TEXT <= s then Some(Parsed(Bool(true), s[4..])) else None)
    else if s[0] == 0x66 then (if FALSE_TEXT <= s then Some(Parsed(Bool(false), s[5..])) else None)
    else if s[0] == QUOTE then
      var text := ReadString(s[1..]);
      if text.None? then None else Some(Parsed(String(text.value.item), text.value.rest))
    else if s[0] == OPEN_BRACKET then
      if |s| > 1 && s[1] == CLOSE_BRACKET then Some(Parsed(Array([]), s[2..]))
      else
        var items := ReadItems(s[1..]);
        if items.None? then None else Some(Parsed(Array(items.value.item), items.value.rest))
    else if s[0] == OPEN_BRACE then
      if |s| > 1 && s[1] == CLOSE_BRACE then Some(Parsed(Object([]), s[2..]))
      else
        var fields := ReadFields(s[1..]);
        if fields.None? then None else Some(Parsed(Object(fields.value.item), fields.value.rest))
    else if NumberUnit(s[0]) then
      var digits := ReadNumber(s);
      Some(Parsed(Number(digits.item), digits.rest))
    else None
  }

  function ReadItems(s: Text): (r: Option<Parsed<seq<Json>>>)
    ensures r.Some? ==> |r.value.rest| < |s|
    decreases |s|, 1
  {
    var first := ReadValue(s);
    if first.None? || first.value.rest == [] then None
    else
      var rest := first.value.rest;
      if rest[0] == CLOSE_BRACKET then Some(Parsed([first.value.item], rest[1..]))
      else if rest[0] == COMMA then
        var more := ReadItems(rest[1..]);
        if more.None? then None else Some(Parsed([first.value.item] + more.value.item, more.value.rest))
      else None
  }

  function ReadFields(s: Text): (r: Option<Parsed<seq<Field>>>)
    ensures r.Some? ==> |r.value.rest| < |s|
    decreases |s|, 1
  {
    if s == [] || s[0] != QUOTE then None
    else
      var key := ReadString(s[1..]);
      if key.None? || key.value.rest == [] || key.value.rest[0] != COLON then None
      else
        var value := ReadValue(key.value.rest[1..]);
        if value.None? || value.value.rest == [] then None
        else
          var field, rest := Field(key.value.item, value.value.item), value.value.rest;
          if rest[0] == CLOSE_BRACE then Some(Parsed([field], rest[1..]))
          else if rest[0] == COMMA then
            var more := ReadFields(rest[1..]);
            if more.None? then None else Some(Parsed([field] + more.value.item, more.value.rest))
          else None
  }

  // ---------- what is printed reads back ----------

  lemma HexDigitReads(d: int)
    requires 0 <= d < 0x10
    ensures HexValue(HexDigit(d)) == d
  {
  }

  lemma Nibbles(c: int)
    requires 0 <= c <= 0xFFFF
    ensures c == ((c / 0x1000 % 0x10 * 0x10 + c / 0x100 % 0x10) * 0x10 + c / 0x10 % 0x10) * 0x10 + c % 0x10
  {
    var q := c / 0x10;
    assert c == q * 0x10 + c % 0x10;
    assert c / 0x100 == q / 0x10;
    var r := q / 0x10;
    assert q == r * 0x10 + q % 0x10;
    assert c / 0x1000 == r / 0x10;
    assert r == r / 0x10 * 0x10 + r % 0x10;
  }

  lemma HexRoundTrip(c: int)
    requires 0 <= c <= 0xFFFF
    ensures var e := UnicodeEscape(c);
            ((HexValue(e[2]) * 0x10 + HexValue(e[3])) * 0x10 + HexValue(e[4])) * 0x10 + HexValue(e[5]) == c
  {
    hide HexDigit, HexValue;
    Nibbles(c);
    HexDigitReads(c / 0x1000 % 0x10);
    HexDigitReads(c / 0x100 % 0x10);
    HexDigitReads(c / 0x10 % 0x10);
    HexDigitReads(c % 0x10);
  }

  lemma UnicodeReads(c: int, tail: Text)
    requires 0 <= c <= 0xFFFF
    ensures ReadString(UnicodeEscape(c) + tail) == Prepend(c, ReadString(tail))
  {
    hide Prepend, HexDigit, HexValue;
    HexRoundTrip(c);
    var e := UnicodeEscape(c);
    assert |e| == 6 && (e + tail)[6..] == tail;
    assert forall i :: 0 <= i < 6 ==> (e + tail)[i] == e[i];
  }

  lemma ShortReads(c: int, tail: Text)
    requires c != 0x75
    ensures ReadString([BACKSLASH, c] + tail) == Prepend(SimpleEscape(c), ReadString(tail))
  {
    hide Prepend, SimpleEscape;
    assert ([BACKSLASH, c] + tail)[2..] == tail;
  }

  lemma LiteralUnitReads(c: int, tail: Text)
    requires c != QUOTE && c != BACKSLASH
    ensures ReadString([c] + tail) == Prepend(c, ReadString(tail))
  {
    hide Prepend;
    assert ([c] + tail)[1..] == tail;
  }

  /** One escaped unit reads back as that unit. */
  lemma UnitReads(c: int, tail: Text)
    requires 0 <= c <= 0xFFFF
    ensures ReadString(EscapeUnit(c) + tail) == Prepend(c, ReadString(tail))
  {
    hide Prepend, ReadString, UnicodeEscape;
    var e := EscapeUnit(c);
    if |e| == 1 && e == [c] {
      if c != QUOTE && c != BACKSLASH {
        LiteralUnitReads(c, tail);
      }
    } else if e == UnicodeEscape(c) {
      UnicodeReads(c, tail);
    } else {
      ShortReads(e[1], tail);
    }
  }

  lemma PairReads(a: int, b: int, tail: Text)
    requires Lead(a) && Trail(b)
    ensures ReadString([a, b] + tail) == Prepend(a, Prepend(b, ReadString(tail)))
  {
    hide Prepend, ReadString;
    LiteralUnitReads(a, [b] + tail);
    LiteralUnitReads(b, tail);
    assert [a, b] + tail == [a] + ([b] + tail);
  }

  lemma NothingEscaped(rest: Text)
    ensures Escaped([]) + [QUOTE] + rest == [QUOTE] + rest
  {
  }

  lemma PairStep(s: Text, rest: Text)
    requires |s| > 1 && Lead(s[0]) && Trail(s[1])
    ensures Escaped(s) + [QUOTE] + rest == [s[0], s[1]] + (Escaped(s[2..]) + [QUOTE] + rest)
    ensures s == [s[0]] + ([s[1]] + s[2..])
  {
    hide Escaped;
    EscapedPair(s);
    FirstTwo(s);
    Associates([s[0], s[1]], Escaped(s[2..]), [QUOTE], rest);
  }

  lemma EscapedPair(s: Text)
    requires |s| > 1 && Lead(s[0]) && Trail(s[1])
    ensures Escaped(s) == [s[0], s[1]] + Escaped(s[2..])
  {
    hide EscapeUnit;
  }

  lemma FirstTwo(s: Text)
    requires |s| > 1
    ensures s == [s[0]] + ([s[1]] + s[2..])
  {
  }

  lemma Associates(a: Text, b: Text, c: Text, d: Text)
    ensures a + b + c + d == a + (b + c + d)
  {
  }

  lemma UnitStep(s: Text, rest: Text)
    requires s != [] && !(|s| > 1 && Lead(s[0]) && Trail(s[1]))
    ensures Escaped(s) + [QUOTE] + rest == EscapeUnit(s[0]) + (Escaped(s[1..]) + [QUOTE] + rest)
    ensures s == [s[0]] + s[1..]
  {
    hide Escaped, EscapeUnit;
    EscapedOne(s);
    Associates(EscapeUnit(s[0]), Escaped(s[1..]), [QUOTE], rest);
  }

  lemma EscapedOne(s: Text)
    requires s != [] && !(|s| > 1 && Lead(s[0]) && Trail(s[1]))
    ensures Escaped(s) == EscapeUnit(s[0]) + Escaped(s[1..])
  {
    hide EscapeUnit;
  }

  lemma {:induction false} EscapedReads(s: Text, rest: Text)
    requires StringText(s)
    ensures ReadString(Escaped(s) + [QUOTE] + rest) == Some(Parsed(s, rest))
    decreases |s|
  {
    hide ReadString, EscapeUnit, Escaped;
    if s == [] {
      EndOfString(rest);
      NothingEscaped(rest);
    } else if |s| > 1 && Lead(s[0]) && Trail(s[1]) {
      EscapedReads(s[2..], rest);
      PairReads(s[0], s[1], Escaped(s[2..]) + [QUOTE] + rest);
      PairStep(s, rest);
    } else {
      EscapedReads(s[1..], rest);
      UnitReads(s[0], Escaped(s[1..]) + [QUOTE] + rest);
      UnitStep(s, rest);
    }
  }

  lemma EndOfString(rest: Text)
    ensures ReadString([QUOTE] + rest) == Some(Parsed([], rest))
  {
  }

  lemma QuotedReads(s: Text, rest: Text)
    requires StringText(s)
    ensures ReadString((Quoted(s) + rest)[1..]) == Some(Parsed(s, rest))
    ensures Quoted(s) != [] && Quoted(s)[0] == QUOTE
  {
    hide ReadString, Escaped;
    EscapedReads(s, rest);
    assert (Quoted(s) + rest)[1..] == Escaped(s) + [QUOTE] + rest;
  }

  /** What may follow a value: nothing, or a delimiter that no number contains. */
  predicate Delimited(rest: Text) {
    rest == [] || rest[0] == COMMA || rest[0] == CLOSE_BRACKET || rest[0] == CLOSE_BRACE
  }

  lemma {:induction false} NumberReads(digits: Text, rest: Text)
    requires (forall i :: 0 <= i < |digits| ==> NumberUnit(digits[i])) && Delimited(rest)
    ensures ReadNumber(digits + rest) == Parsed(digits, rest)
    decreases |digits|
  {
    if digits == [] {
      assert digits + rest == rest;
    } else {
      NumberReads(digits[1..], rest);
      assert (digits + rest)[1..] == digits[1..] + rest;
      assert digits == [digits[0]] + digits[1..];
    }
  }

  lemma {:induction false} PrintReads(v: Json, rest: Text)
    requires WellFormed(v) && Delimited(rest)
    ensures ReadValue(Print(v) + rest) == Some(Parsed(v, rest))
    ensures Print(v) != [] && Print(v)[0] != CLOSE_BRACKET && Print(v)[0] != CLOSE_BRACE
    decreases v, 1
  {
    match v
    case Null => LiteralReads(v, rest);
    case Bool(_) => LiteralReads(v, rest);
    case Number(digits) => PrintedNumber(digits, rest);
    case String(units) => PrintedString(units, rest);
    case Array(items) => PrintedArray(items, rest);
    case Object(fields) => PrintedObject(fields, rest);
  }

  lemma LiteralReads(v: Json, rest: Text)
    requires v.Null? || v.Bool?
    ensures ReadValue(Print(v) + rest) == Some(Parsed(v, rest))
  {
    var s := Print(v) + rest;
    assert s[..|Print(v)|] == Print(v);
    assert s[|Print(v)|..] == rest;
  }

  lemma PrintedNumber(digits: Text, rest: Text)
    requires NumberText(digits) && Delimited(rest)
    ensures ReadValue(Print(Number(digits)) + rest) == Some(Parsed(Number(digits), rest))
  {
    hide ReadNumber;
    NumberReads(digits, rest);
  }

  lemma PrintedString(units: Text, rest: Text)
    requires StringText(units)
    ensures ReadValue(Print(String(units)) + rest) == Some(Parsed(String(units), rest))
  {
    hide ReadString, Quoted;
    QuotedReads(units, rest);
  }

  lemma {:induction false} PrintedArray(items: seq<Json>, rest: Text)
    requires forall i :: 0 <= i < |items| ==> WellFormed(items[i])
    ensures ReadValue(Print(Array(items)) + rest) == Some(Parsed(Array(items), rest))
    decreases items, 3
  {
    hide ReadItems, PrintItems, WellFormed;
    var s := Print(Array(items)) + rest;
    if items == [] {
      NoItems();
      assert s == [OPEN_BRACKET, CLOSE_BRACKET] + rest;
      assert s[2..] == rest;
    } else {
      ItemsRead(items, rest);
      assert s == [OPEN_BRACKET] + (PrintItems(items) + [CLOSE_BRACKET] + rest);
      assert s[1..] == PrintItems(items) + [CLOSE_BRACKET] + rest;
    }
  }

  lemma NoItems()
    ensures PrintItems([]) == [] && PrintFields([]) == []
  {
  }

  lemma LastItem(s: Text, v: Json, rest: Text)
    requires ReadValue(s) == Some(Parsed(v, [CLOSE_BRACKET] + rest))
    ensures ReadItems(s) == Some(Parsed([v], rest))
  {
    hide ReadValue;
  }

  lemma NextItem(s: Text, v: Json, more: Text, items: seq<Json>, rest: Text)
    requires ReadValue(s) == Some(Parsed(v, [COMMA] + more)) && ReadItems(more) == Some(Parsed(items, rest))
    ensures ReadItems(s) == Some(Parsed([v] + items, rest))
  {
    hide ReadValue;
    assert ([COMMA] + more)[1..] == more;
  }

  function MoreItems(items: seq<Json>): Text {
    if |items| <= 1 then [] else [COMMA] + PrintItems(items[1..])
  }

  lemma ItemsSplit(items: seq<Json>, rest: Text)
    requires items != []
    ensures PrintItems(items) + [CLOSE_BRACKET] + rest == Print(items[0]) + (MoreItems(items) + ([CLOSE_BRACKET] + rest))
    ensures Print(items[0]) != [] ==> PrintItems(items) != [] && PrintItems(items)[0] == Print(items[0])[0]
  {
    hide Print, MoreItems;
    assert PrintItems(items) == Print(items[0]) + MoreItems(items) by { PrintItemsStep(items); }
    Regroup([], [], Print(items[0]), MoreItems(items), [CLOSE_BRACKET], rest);
  }

  lemma PrintItemsStep(items: seq<Json>)
    requires items != []
    ensures PrintItems(items) == Print(items[0]) + MoreItems(items)
  {
    hide Print;
  }

  lemma {:induction false} ItemsRead(items: seq<Json>, rest: Text)
    requires items != [] && forall i :: 0 <= i < |items| ==> WellFormed(items[i])
    ensures ReadItems(PrintItems(items) + [CLOSE_BRACKET] + rest) == Some(Parsed(items, rest))
    ensures PrintItems(items) != [] && PrintItems(items)[0] != CLOSE_BRACKET
    decreases items, 2
  {
    hide ReadValue, ReadItems, WellFormed, Print, PrintItems;
    ItemsSplit(items, rest);
    var s := PrintItems(items) + [CLOSE_BRACKET] + rest;
    if |items| == 1 {
      PrintReads(items[0], [CLOSE_BRACKET] + rest);
      assert [] + ([CLOSE_BRACKET] + rest) == [CLOSE_BRACKET] + rest;
      LastItem(s, items[0], rest);
      assert items == [items[0]];
    } else {
      var more := PrintItems(items[1..]) + [CLOSE_BRACKET] + rest;
      PrintReads(items[0], [COMMA] + more);
      ItemsRead(items[1..], rest);
      assert [COMMA] + PrintItems(items[1..]) + ([CLOSE_BRACKET] + rest) == [COMMA] + more;
      NextItem(s, items[0], more, items[1..], rest);
      assert items == [items[0]] + items[1..];
    }
  }

  lemma {:induction false} PrintedObject(fields: seq<Field>, rest: Text)
    requires forall i :: 0 <= i < |fields| ==> StringText(fields[i].key) && WellFormed(fields[i].value)
    ensures ReadValue(Print(Object(fields)) + rest) == Some(Parsed(Object(fields), rest))
    decreases fields, 3
  {
    hide ReadFields, PrintFields, WellFormed, StringText;
    var s := Print(Object(fields)) + rest;
    if fields == [] {
      NoItems();
      assert s == [OPEN_BRACE, CLOSE_BRACE] + rest;
      assert s[2..] == rest;
    } else {
      FieldsRead(fields, rest);
      assert s == [OPEN_BRACE] + (PrintFields(fields) + [CLOSE_BRACE] + rest);
      assert s[1..] == PrintFields(fields) + [CLOSE_BRACE] + rest;
    }
  }

  /** The text of one field followed by the rest of the object. */
  function FieldText(f: Field, after: Text): Text {
    Quoted(f.key) + ([COLON] + (Print(f.value) + after))
  }

  function MoreFields(fields: seq<Field>): Text {
    if |fields| <= 1 then [] else [COMMA] + PrintFields(fields[1..])
  }

  lemma FieldsSplit(fields: seq<Field>, rest: Text)
    requires fields != []
    ensures PrintFields(fields) + [CLOSE_BRACE] + rest == FieldText(fields[0], MoreFields(fields) + ([CLOSE_BRACE] + rest))
  {
    hide Quoted, Print, PrintFields, MoreFields;
    PrintFieldsStep(fields);
    Regroup(Quoted(fields[0].key), [COLON], Print(fields[0].value), MoreFields(fields), [CLOSE_BRACE], rest);
  }

  lemma FieldsStart(fields: seq<Field>)
    requires fields != []
    ensures PrintFields(fields) != [] && PrintFields(fields)[0] == QUOTE
  {
    hide Quoted, Print, PrintFields;
    PrintFieldsStep(fields);
    QuoteStart(fields[0].key);
  }

  lemma QuoteStart(s: Text)
    ensures Quoted(s) != [] && Quoted(s)[0] == QUOTE
  {
  }

  lemma PrintFieldsStep(fields: seq<Field>)
    requires fields != []
    ensures PrintFields(fields) ==
            Quoted(fields[0].key) + [COLON] + Print(fields[0].value) + MoreFields(fields)
  {
    hide Quoted, Print;
  }

  lemma Regroup(a: Text, b: Text, c: Text, d: Text, e: Text, f: Text)
    ensures a + b + c + d + e + f == a + (b + (c + (d + (e + f))))
  {
  }

  lemma LastField(f: Field, rest: Text)
    requires StringText(f.key) && ReadValue(Print(f.value) + ([CLOSE_BRACE] + rest)) == Some(Parsed(f.value, [CLOSE_BRACE] + rest))
    ensures ReadFields(FieldText(f, [CLOSE_BRACE] + rest)) == Some(Parsed([f], rest))
  {
    hide ReadValue, ReadString, Print, Quoted;
    var body := Print(f.value) + ([CLOSE_BRACE] + rest);
    QuotedReads(f.key, [COLON] + body);
    assert ([COLON] + body)[1..] == body;
    assert ([CLOSE_BRACE] + rest)[1..] == rest;
  }

  lemma NextField(f: Field, more: Text, fields: seq<Field>, rest: Text)
    requires StringText(f.key) && ReadValue(Print(f.value) + ([COMMA] + more)) == Some(Parsed(f.value, [COMMA] + more))
    requires ReadFields(more) == Some(Parsed(fields, rest))
    ensures ReadFields(FieldText(f, [COMMA] + more)) == Some(Parsed([f] + fields, rest))
  {
    hide ReadValue, ReadString, Print, Quoted;
    var body := Print(f.value) + ([COMMA] + more);
    QuotedReads(f.key, [COLON] + body);
    assert ([COLON] + body)[1..] == body;
    assert ([COMMA] + more)[1..] == more;
  }

  lemma {:induction false} FieldsRead(fields: seq<Field>, rest: Text)
    requires fields != [] && forall i :: 0 <= i < |fields| ==> StringText(fields[i].key) && WellFormed(fields[i].value)
    ensures ReadFields(PrintFields(fields) + [CLOSE_BRACE] + rest) == Some(Parsed(fields, rest))
    ensures PrintFields(fields) != [] && PrintFields(fields)[0] == QUOTE
    decreases fields, 2
  {
    hide ReadValue, ReadFields, ReadString, WellFormed, StringText, Print, PrintFields, FieldText;
    FieldsSplit(fields, rest);
    FieldsStart(fields);
    var f := fields[0];
    if |fields| == 1 {
      PrintReads(f.value, [CLOSE_BRACE] + rest);
      assert [] + ([CLOSE_BRACE] + rest) == [CLOSE_BRACE] + rest;
      LastField(f, rest);
      assert fields == [f];
    } else {
      var more := PrintFields(fields[1..]) + [CLOSE_BRACE] + rest;
      PrintReads(f.value, [COMMA] + more);
      FieldsRead(fields[1..], rest);
      assert [COMMA] + PrintFields(fields[1..]) + ([CLOSE_BRACE] + rest) == [COMMA] + more;
      NextField(f, more, fields[1..], rest);
      assert fields == [f] + fields[1..];
    }
  }

  // ---------- the theorem ----------

  lemma {:induction false} CanonicalWellFormed(v: Json)
    requires WellFormed(v)
    ensures WellFormed(Canonical(v))
    decreases Size(v), 1
  {
    match v
    case Array(items) =>
      forall i | 0 <= i < |items| ensures WellFormed(CanonicalItems(items)[i]) {
        CanonicalItemsAt(items, i);
        CanonicalWellFormed(items[i]);
      }
    case Object(fields) => CanonicalObjectWellFormed(v);
    case _ =>
  }

  lemma {:induction false} CanonicalObjectWellFormed(v: Json)
    requires WellFormed(v) && v.Object?
    ensures WellFormed(Canonical(v))
    decreases Size(v), 0
  {
    hide Canonical, CanonicalFields, Sort;
    ObjectCanonical(v);
    var sorted := Sort(v.fields);
    var fields := CanonicalFields(sorted);
    forall i | 0 <= i < |fields| ensures StringText(fields[i].key) && WellFormed(fields[i].value) && fields[i].key == sorted[i].key {
      CanonicalFieldsAt(sorted, i);
      CanonicalWellFormed(sorted[i].value);
    }
    forall i, j | 0 <= i < j < |fields| ensures fields[i].key != fields[j].key {
      LessTotal(sorted[i].key, sorted[j].key);
    }
  }

  /** The keys of a canonical object ascend by code unit, and are those of the object. */
  lemma KeysAscend(v: Json)
    requires WellFormed(v) && v.Object?
    ensures var sorted := Canonical(v);
            && sorted.Object? && |sorted.fields| == |v.fields|
            && (forall i, j :: 0 <= i < j < |sorted.fields| ==> ByCodeUnits(sorted.fields[i].key, sorted.fields[j].key))
            && (forall i :: 0 <= i < |sorted.fields| ==> HasKey(v.fields, sorted.fields[i].key))
            && (forall j :: 0 <= j < |v.fields| ==> HasKey(sorted.fields, v.fields[j].key))
  {
    hide Canonical, CanonicalFields, Sort, Less, WellFormed, ByCodeUnits;
    ObjectCanonical(v);
    var sorted, fields := Sort(v.fields), CanonicalFields(Sort(v.fields));
    forall i | 0 <= i < |fields| ensures fields[i].key == sorted[i].key {
      CanonicalFieldsAt(sorted, i);
    }
    forall i, j | 0 <= i < j < |fields| ensures ByCodeUnits(fields[i].key, fields[j].key) {
      LessIff(sorted[i].key, sorted[j].key);
    }
    forall i | 0 <= i < |fields| ensures HasKey(v.fields, fields[i].key) {
      assert sorted[i] in v.fields;
    }
    forall j | 0 <= j < |v.fields| ensures HasKey(fields, v.fields[j].key) {
      assert v.fields[j] in sorted;
      var i :| 0 <= i < |sorted| && sorted[i] == v.fields[j];
      assert fields[i].key == v.fields[j].key;
    }
  }

  // ---------- what a string prints as ----------

  /** Unit `i` is half of a surrogate pair. */
  predicate Paired(s: Text, i: nat)
    requires i < |s|
  {
    (Lead(s[i]) && i + 1 < |s| && Trail(s[i + 1])) || (Trail(s[i]) && i > 0 && Lead(s[i - 1]))
  }

  /** The text of the units from `i` on, each by itself. */
  function UnitByUnit(s: Text, i: nat): Text
    requires i <= |s|
    decreases |s| - i
  {
    if i == |s| then [] else (if Paired(s, i) then [s[i]] else EscapeUnit(s[i])) + UnitByUnit(s, i + 1)
  }

  /** Scanning for pairs from the left escapes every unit by what stands next to it alone. */
  lemma {:induction false} EscapedUnitByUnit(s: Text, i: nat)
    requires i <= |s| && (0 < i < |s| ==> !(Lead(s[i - 1]) && Trail(s[i])))
    ensures Escaped(s[i..]) == UnitByUnit(s, i)
    decreases |s| - i
  {
    hide EscapeUnit;
    if i < |s| {
      if i + 1 < |s| && Lead(s[i]) && Trail(s[i + 1]) {
        EscapedUnitByUnit(s, i + 2);
        assert s[i..][2..] == s[i + 2..];
        assert UnitByUnit(s, i + 1) == [s[i + 1]] + UnitByUnit(s, i + 2);
        assert UnitByUnit(s, i) == [s[i], s[i + 1]] + UnitByUnit(s, i + 2);
      } else {
        EscapedUnitByUnit(s, i + 1);
        assert s[i..][1..] == s[i + 1..];
      }
    }
  }

  predicate LowerHex(c: int) {
    0x30 <= c <= 0x39 || 0x61 <= c <= 0x66
  }

  /**
   A unit is printed as itself unless it is a quote, a backslash, a control or
   a surrogate. Seven of those have a two-unit escape, the others six units
   with lower-case digits.
   */
  lemma UnitForm(c: int)
    requires 0 <= c <= 0xFFFF
    ensures var e := EscapeUnit(c);
            && (e == [c] <==> 0x20 <= c && c != QUOTE && c != BACKSLASH && !(0xD800 <= c <= 0xDFFF))
            && (|e| == 2 <==> c in {0x08, 0x09, 0x0A, 0x0C, 0x0D, QUOTE, BACKSLASH})
            && (e != [c] ==> e[0] == BACKSLASH && (|e| == 2 || |e| == 6))
            && (|e| == 6 ==> e[1] == 0x75 && LowerHex(e[2]) && LowerHex(e[3]) && LowerHex(e[4]) && LowerHex(e[5]))
  {
  }

  /** The printed text, read back, is the value with its keys sorted at every depth. */
  lemma StableReadsBack(v: Json)
    requires WellFormed(v)
    ensures ReadValue(StableStringify(v)) == Some(Parsed(Canonical(v), []))
  {
    hide ReadValue, StableStringify, Canonical, WellFormed, Print;
    StableIsPrint(v);
    CanonicalWellFormed(v);
    PrintReads(Canonical(v), []);
    assert Print(Canonical(v)) + [] == Print(Canonical(v));
  }

  /** Two values print alike exactly when they are equal up to key order at every depth. */
  lemma SameTextIff(a: Json, b: Json)
    requires WellFormed(a) && WellFormed(b)
    ensures StableStringify(a) == StableStringify(b) <==> Equivalent(a, b)
  {
    hide ReadValue, StableStringify, Canonical, WellFormed, Equivalent, Print;
    StableReadsBack(a);
    StableReadsBack(b);
    StableIsPrint(a);
    StableIsPrint(b);
    CanonicalIff(a, b);
  }
}
