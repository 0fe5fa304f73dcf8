/**
 Canonical JSON as the lesson engine hashes it (api/utils/canonical.py): the imperative writer over
 code points, and a reader that inverts it, so that the bytes determine the value.
 */
module Canonical {
  import opened Options

  /** One code point of a Python string; lone surrogates are possible there. */
  type CodePoint = c: int | 0 <= c < 0x110000
  type Text = seq<CodePoint>

  /** What `json` hands to the service; `Other` stands for floats and every other type. */
  datatype Json =
    | Null
    | Bool(b: bool)
    | Int(i: int)
    | Str(text: Text)
    | List(items: seq<Json>)
    | Object(members: map<Text, Json>)
    | Other(repr: Text)

  const SAFE_INTEGER := 0x1F_FFFF_FFFF_FFFF

  const QUOTE: CodePoint := 0x22
  const COMMA: CodePoint := 0x2C
  const MINUS: CodePoint := 0x2D
  const ZERO: CodePoint := 0x30
  const COLON: CodePoint := 0x3A
  const OPEN_LIST: CodePoint := 0x5B
  const BACKSLASH: CodePoint := 0x5C
  const CLOSE_LIST: CodePoint := 0x5D
  const LOWER_U: CodePoint := 0x75
  const OPEN_OBJECT: CodePoint := 0x7B
  const CLOSE_OBJECT: CodePoint := 0x7D
  const NULL_WORD: Text := [0x6E, 0x75, 0x6C, 0x6C]
  const TRUE_WORD: Text := [0x74, 0x72, 0x75, 0x65]
  const FALSE_WORD: Text := [0x66, 0x61, 0x6C, 0x73, 0x65]

  // ----- What has a canonical form ------------------------------------------------------------

  predicate IsSurrogate(c: CodePoint) {
    0xD800 <= c <= 0xDFFF
  }

  predicate SurrogateFree(s: Text) {
    forall i | 0 <= i < |s| :: !IsSurrogate(s[i])
  }

  /** Null, booleans, safe integers, surrogate-free strings, and lists and objects of such values. */
  predicate Representable(v: Json) {
    match v
    case Null => true
    case Bool(_) => true
    case Int(i) => -SAFE_INTEGER <= i <= SAFE_INTEGER
    case Str(s) => SurrogateFree(s)
    case List(items) => forall i | 0 <= i < |items| :: Representable(items[i])
    case Object(members) => forall k | k in members :: SurrogateFree(k) && Representable(members[k])
    case Other(_) => false
  }

  predicate MemberFits(value: Json, key: Text)
    requires value.Object? && key in value.members
  {
    SurrogateFree(key) && Representable(value.members[key])
  }

  // ----- The canonical form ---------------------------------------------------------------------

  function HexDigit(d: nat): CodePoint
    requires d < 16
  {
    if d < 10 then ZERO + d else 0x61 + d - 10
  }

  function Escape(c: CodePoint): Text {
    if c == QUOTE then [BACKSLASH, QUOTE]
    else if c == BACKSLASH then [BACKSLASH, BACKSLASH]
    else if c < 0x20 then [BACKSLASH, LOWER_U, ZERO, ZERO, HexDigit(c / 16), HexDigit(c % 16)]
    else [c]
  }

  function Escaped(s: Text): Text {
    if s == [] then [] else Escape(s[0]) + Escaped(s[1..])
  }

  function Quoted(s: Text): Text {
    [QUOTE] + Escaped(s) + [QUOTE]
  }

  function Digits(n: nat): Text {
    if n < 10 then [ZERO + n] else Digits(n / 10) + [ZERO + n % 10]
  }

  function Numeral(i: int): Text {
    if i < 0 then [MINUS] + Digits(-i) else Digits(i)
  }

  /** The comma before every element but the first. */
  function Separator(index: nat): Text {
    if index > 0 then [COMMA] else []
  }

  function Form(v: Json): Text
    decreases v
  {
    match v
    case Null => NULL_WORD
    case Bool(b) => if b then TRUE_WORD else FALSE_WORD
    case Int(i) => Numeral(i)
    case Str(s) => Quoted(s)
    case List(items) => [OPEN_LIST] + FormItems(items, 0) + [CLOSE_LIST]
    case Object(members) =>
      [OPEN_OBJECT] + FormMembers(v, Sorted(members.Keys), 0) + [CLOSE_OBJECT]
    case Other(_) => []
  }

  function FormItems(items: seq<Json>, index: nat): Text
    requires index <= |items|
    decreases items, |items| - index
  {
    if index == |items| then []
    else Separator(index) + Form(items[index]) + FormItems(items, index + 1)
  }

  function FormMember(value: Json, key: Text): Text
    requires value.Object? && key in value.members
    decreases value, 0
  {
    Quoted(key) + [COLON] + Form(value.members[key])
  }

  function FormMembers(value: Json, keys: seq<Text>, index: nat): Text
    requires value.Object?
    requires index <= |keys|
    requires forall k | k in keys :: k in value.members
    decreases value, 1, |keys| - index
  {
    if index == |keys| then []
    else
      Separator(index) + FormMember(value, keys[index]) + FormMembers(value, keys, index + 1)
  }

  // ----- Key order: by code point ----------------------------------------------------------------

  predicate Before(a: Text, b: Text) {
    b != [] && (a == [] || a[0] < b[0] || (a[0] == b[0] && Before(a[1..], b[1..])))
  }

  lemma {:induction false} BeforeIsTotal(a: Text, b: Text)
    ensures a == b || Before(a, b) || Before(b, a)
  {
    if a != [] && b != [] && a[0] == b[0] {
      BeforeIsTotal(a[1..], b[1..]);
      assert a == [a[0]] + a[1..] && b == [b[0]] + b[1..];
    }
  }

  lemma {:induction false} BeforeIsTransitive(a: Text, b: Text, c: Text)
    requires Before(a, b) && Before(b, c)
    ensures Before(a, c)
  {
    if a != [] && a[0] == b[0] && b[0] == c[0] {
      BeforeIsTransitive(a[1..], b[1..], c[1..]);
    }
  }

  lemma {:induction false} BeforeIsIrreflexive(a: Text)
    ensures !Before(a, a)
  {
    if a != [] { BeforeIsIrreflexive(a[1..]); }
  }

  predicate IsFirst(k: Text, keys: set<Text>) {
    k in keys && forall o | o in keys && o != k :: Before(k, o)
  }

  lemma {:induction false} FirstExists(keys: set<Text>)
    requires keys != {}
    ensures exists k :: IsFirst(k, keys)
    decreases |keys|
  {
    var k :| k in keys;
    if keys == {k} {
      assert IsFirst(k, keys);
    } else {
      FirstExists(keys - {k});
      var f :| IsFirst(f, keys - {k});
      BeforeIsTotal(k, f);
      if Before(f, k) {
        assert IsFirst(f, keys);
      } else {
        forall o | o in keys && o != k ensures Before(k, o) {
          if o != f { BeforeIsTransitive(k, f, o); }
        }
        assert IsFirst(k, keys);
      }
    }
  }

  lemma FirstIsUnique(a: Text, b: Text, keys: set<Text>)
    requires IsFirst(a, keys) && IsFirst(b, keys)
    ensures a == b
  {
    if a != b {
      BeforeIsTransitive(a, b, a);
      BeforeIsIrreflexive(a);
    }
  }

  /** Python's `sorted` on the keys of a dictionary. */
  function Sorted(keys: set<Text>): (s: seq<Text>)
    ensures forall k :: k in s <==> k in keys
    decreases |keys|
  {
    if keys == {} then []
    else
      FirstExists(keys);
      assert forall a, b | IsFirst(a, keys) && IsFirst(b, keys) :: a == b by {
        forall a, b | IsFirst(a, keys) && IsFirst(b, keys) ensures a == b { FirstIsUnique(a, b, keys); }
      }
      var k :| IsFirst(k, keys);
      [k] + Sorted(keys - {k})
  }

  predicate Ascending(s: seq<Text>) {
    forall i, j | 0 <= i < j < |s| :: Before(s[i], s[j])
  }

  /** Object keys come strictly by code point, each once. */
  lemma {:induction false} SortedAscends(keys: set<Text>)
    ensures Ascending(Sorted(keys)) && |Sorted(keys)| == |keys|
    decreases |keys|
  {
    if keys != {} {
      var s := Sorted(keys);
      SortedAscends(keys - {s[0]});
      forall i, j | 0 <= i < j < |s| ensures Before(s[i], s[j]) {
        if i == 0 {
          assert s[j] == s[1..][j - 1];
          assert s[j] in Sorted(keys - {s[0]});
        } else {
          assert s[i] == s[1..][i - 1] && s[j] == s[1..][j - 1];
        }
      }
    }
  }

  // ----- The writer -----------------------------------------------------------------------------

  function Join(parts: seq<Text>): Text {
    if parts == [] then [] else parts[0] + Join(parts[1..])
  }

  lemma {:induction false} JoinAppend(parts: seq<Text>, part: Text)
    ensures Join(parts + [part]) == Join(parts) + part
  {
    if parts == [] {
      assert parts + [part] == [part];
      assert Join([part]) == part + Join([]);
    } else {
      JoinAppend(parts[1..], part);
      assert (parts + [part])[1..] == parts[1..] + [part];
    }
  }

  /** The list of string parts that the writer appends to. */
  class Output {
    var parts: seq<Text>

    constructor ()
      ensures Joined() == []
    {
      parts := [];
    }

    function Joined(): Text
      reads this
    {
      Join(parts)
    }

    method Append(part: Text)
      modifies this
      ensures Joined() == old(Joined()) + part
    {
      JoinAppend(parts, part);
      parts := parts + [part];
    }
  }

  lemma {:induction false} EscapedAppend(s: Text, c: CodePoint)
    ensures Escaped(s + [c]) == Escaped(s) + Escape(c)
  {
    if s == [] {
      assert s + [c] == [c];
      assert Escaped([c]) == Escape(c) + Escaped([]);
    } else {
      EscapedAppend(s[1..], c);
      assert (s + [c])[1..] == s[1..] + [c];
    }
  }

  /** The quoted string, or None for a lone surrogate. */
  method WriteText(value: Text) returns (quoted: Option<Text>)
    ensures quoted == if SurrogateFree(value) then Some(Quoted(value)) else None
  {
    var out := new Output();
    out.Append([QUOTE]);
    for index := 0 to |value|
      invariant SurrogateFree(value[..index])
      invariant fresh(out)
      invariant out.Joined() == [QUOTE] + Escaped(value[..index])
    {
      var c := value[index];
      EscapedAppend(value[..index], c);
      assert value[..index + 1] == value[..index] + [c];
      if c == QUOTE {
        out.Append([BACKSLASH, QUOTE]);
      } else if c == BACKSLASH {
        out.Append([BACKSLASH, BACKSLASH]);
      } else if c < 0x20 {
        out.Append([BACKSLASH, LOWER_U, ZERO, ZERO, HexDigit(c / 16), HexDigit(c % 16)]);
      } else if IsSurrogate(c) {
        return None;
      } else {
        out.Append([c]);
      }
      assert [QUOTE] + (Escaped(value[..index]) + Escape(c)) == [QUOTE] + Escaped(value[..index]) + Escape(c);
    }
    assert value[..|value|] == value;
    out.Append([QUOTE]);
    quoted := Some(out.Joined());
  }

  lemma Regroup(before: Text, head: Text, tail: Text)
    ensures before + head + tail == before + (head + tail)
  {}

  /** Appends the canonical form of `value`; false is the CanonicalError, after which `out` is of no use. */
  method Write(value: Json, out: Output) returns (ok: bool)
    modifies out
    ensures ok <==> Representable(value)
    ensures ok ==> out.Joined() == old(out.Joined()) + Form(value)
    decreases value
  {
    ghost var start := out.Joined();
    match value
    case Null =>
      out.Append(NULL_WORD);
      return true;
    case Bool(b) =>
      out.Append(if b then TRUE_WORD else FALSE_WORD);
      return true;
    case Int(i) =>
      if !(-SAFE_INTEGER <= i <= SAFE_INTEGER) {
        return false;
      }
      out.Append(Numeral(i));
      return true;
    case Str(s) =>
      var quoted := WriteText(s);
      if quoted == None {
        return false;
      }
      out.Append(quoted.value);
      return true;
    case List(items) =>
      out.Append([OPEN_LIST]);
      ok := WriteItems(items, out);
      if ok {
        out.Append([CLOSE_LIST]);
        Regroup(start, [OPEN_LIST], FormItems(items, 0));
        Regroup(start, [OPEN_LIST] + FormItems(items, 0), [CLOSE_LIST]);
      }
    case Object(members) =>
      out.Append([OPEN_OBJECT]);
      var keys := Sorted(members.Keys);
      ok := WriteMembers(value, keys, out);
      if ok {
        out.Append([CLOSE_OBJECT]);
        Regroup(start, [OPEN_OBJECT], FormMembers(value, keys, 0));
        Regroup(start, [OPEN_OBJECT] + FormMembers(value, keys, 0), [CLOSE_OBJECT]);
      }
    case Other(_) =>
      return false;
  }

  /** The loop of `_write` over a list. */
  method WriteItems(items: seq<Json>, out: Output) returns (ok: bool)
    modifies out
    ensures ok <==> forall i | 0 <= i < |items| :: Representable(items[i])
    ensures ok ==> out.Joined() == old(out.Joined()) + FormItems(items, 0)
    decreases items
  {
    ghost var start := out.Joined();
    for index := 0 to |items|
      invariant forall i | 0 <= i < index :: Representable(items[i])
      invariant out.Joined() + FormItems(items, index) == start + FormItems(items, 0)
    {
      ghost var before := out.Joined();
      if index > 0 {
        out.Append([COMMA]);
      }
      ok := Write(items[index], out);
      if !ok {
        return;
      }
      assert out.Joined() == before + Separator(index) + Form(items[index]);
      Regroup(before, Separator(index), Form(items[index]));
      Regroup(before, Separator(index) + Form(items[index]), FormItems(items, index + 1));
    }
    return true;
  }

  ghost predicate AllFit(value: Json, keys: seq<Text>, count: nat)
    requires value.Object? && (forall k | k in keys :: k in value.members) && count <= |keys|
  {
    count == 0 || (AllFit(value, keys, count - 1) && MemberFits(value, keys[count - 1]))
  }

  lemma {:induction false} AllFitMeans(value: Json, keys: seq<Text>, count: nat)
    requires value.Object? && (forall k | k in keys :: k in value.members) && count <= |keys|
    ensures AllFit(value, keys, count) <==> forall i | 0 <= i < count :: MemberFits(value, keys[i])
  {
    if count > 0 { AllFitMeans(value, keys, count - 1); }
  }

  method WriteMember(value: Json, key: Text, out: Output) returns (ok: bool)
    requires value.Object? && key in value.members
    modifies out
    ensures ok <==> MemberFits(value, key)
    ensures ok ==> out.Joined() == old(out.Joined()) + FormMember(value, key)
    decreases value, 0
  {
    ghost var start := out.Joined();
    var quoted := WriteText(key);
    if quoted == None {
      return false;
    }
    out.Append(quoted.value);
    out.Append([COLON]);
    ok := Write(value.members[key], out);
    Regroup(start, Quoted(key), [COLON]);
    Regroup(start, Quoted(key) + [COLON], Form(value.members[key]));
  }

  /** The loop of `_write` over the sorted keys of a dictionary. */
  method WriteMembers(value: Json, keys: seq<Text>, out: Output) returns (ok: bool)
    requires value.Object? && forall k :: k in keys <==> k in value.members
    modifies out
    ensures ok <==> Representable(value)
    ensures ok ==> out.Joined() == old(out.Joined()) + FormMembers(value, keys, 0)
    decreases value, 1
  {
    ghost var start := out.Joined();
    for index := 0 to |keys|
      invariant AllFit(value, keys, index)
      invariant out.Joined() + FormMembers(value, keys, index) == start + FormMembers(value, keys, 0)
    {
      ghost var before := out.Joined();
      assert keys[index] in keys;
      if index > 0 {
        out.Append([COMMA]);
      }
      assert out.Joined() == before + Separator(index);
      ok := WriteMember(value, keys[index], out);
      if !ok {
        return;
      }
      Regroup(before, Separator(index), FormMember(value, keys[index]));
      Regroup(before, Separator(index) + FormMember(value, keys[index]), FormMembers(value, keys, index + 1));
    }
    AllFitMeans(value, keys, |keys|);
    return true;
  }

  /** The canonical text of a value, or None where the service raises CanonicalError. */
  function CanonicalText(value: Json): Option<Text> {
    if Representable(value) then Some(Form(value)) else None
  }

  method Canonical(value: Json) returns (text: Option<Text>)
    ensures text == CanonicalText(value)
  {
    var out := new Output();
    var ok := Write(value, out);
    assert [] + Form(value) == Form(value);
    text := if ok then Some(out.Joined()) else None;
  }
}
