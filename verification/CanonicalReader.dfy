/**
 The inverse of the canonical writer: a reader of the canonical form, the round trip over arbitrarily
 nested values, and what follows from it: equal bytes are equal values.
 */
module CanonicalReader {
  import opened Options
  import opened Canonical

  // ----- The reader -------------------------------------------------------------------------------

  predicate StartsWithDigit(s: Text) {
    s != [] && ZERO <= s[0] < ZERO + 10
  }

  /** Reads the longest run of digits, most significant first, on top of `n`. */
  function ReadDigits(s: Text, n: nat): (r: (nat, Text))
    ensures |r.1| <= |s| && (StartsWithDigit(s) ==> |r.1| < |s|)
  {
    if StartsWithDigit(s) then ReadDigits(s[1..], 10 * n + (s[0] - ZERO)) else (n, s)
  }

  function HexValue(c: CodePoint): Option<nat> {
    if ZERO <= c < ZERO + 10 then Some(c - ZERO)
    else if 0x61 <= c < 0x67 then Some(c - 0x61 + 10)
    else None
  }

  /** The characters up to the closing quote. */
  function ReadCharacters(s: Text): (r: Option<(Text, Text)>)
    ensures r.Some? ==> |r.value.1| < |s|
  {
    if s == [] then None
    else if s[0] == QUOTE then Some(([], s[1..]))
    else if s[0] == BACKSLASH then
      if |s| >= 2 && (s[1] == QUOTE || s[1] == BACKSLASH) then Prefixed(s[1], ReadCharacters(s[2..]))
      else if |s| >= 6 && s[1] == LOWER_U && s[2] == ZERO && s[3] == ZERO
              && HexValue(s[4]).Some? && HexValue(s[5]).Some? then
        Prefixed(16 * HexValue(s[4]).value + HexValue(s[5]).value, ReadCharacters(s[6..]))
      else None
    else Prefixed(s[0], ReadCharacters(s[1..]))
  }

  function Prefixed(c: CodePoint, r: Option<(Text, Text)>): Option<(Text, Text)> {
    if r.Some? then Some(([c] + r.value.0, r.value.1)) else None
  }

  function ReadString(s: Text): (r: Option<(Text, Text)>)
    ensures r.Some? ==> |r.value.1| < |s|
  {
    if s != [] && s[0] == QUOTE then ReadCharacters(s[1..]) else None
  }

  /** One value at the front of `s` and what follows it. */
  function ReadValue(s: Text): (r: Option<(Json, Text)>)
    ensures r.Some? ==> |r.value.1| < |s|
    decreases |s|, 0
  {
    if NULL_WORD <= s then Some((Null, s[4..]))
    else if TRUE_WORD <= s then Some((Bool(true), s[4..]))
    else if FALSE_WORD <= s then Some((Bool(false), s[5..]))
    else if StartsWithDigit(s) then
      var r := ReadDigits(s, 0);
      Some((Int(r.0), r.1))
    else if s == [] then None
    else if s[0] == MINUS then
      var r := ReadDigits(s[1..], 0);
      Some((Int(0 - r.0), r.1))
    else if s[0] == QUOTE then
      var r := ReadString(s);
      if r.Some? then Some((Str(r.value.0), r.value.1)) else None
    else if s[0] == OPEN_LIST then
      var r := ReadItems(s[1..], 0);
      if r.Some? then Some((List(r.value.0), r.value.1)) else None
    else if s[0] == OPEN_OBJECT then
      var r := ReadMembers(s[1..], 0);
      if r.Some? then Some((Object(r.value.0), r.value.1)) else None
    else None
  }

  /** The comma that stands before every element but the first. */
  function AfterSeparator(s: Text, index: nat): (r: Option<Text>)
    ensures r.Some? ==> |r.value| <= |s|
  {
    if index == 0 then Some(s)
    else if s != [] && s[0] == COMMA then Some(s[1..])
    else None
  }

  function ReadItems(s: Text, index: nat): (r: Option<(seq<Json>, Text)>)
    ensures r.Some? ==> |r.value.1| < |s|
    decreases |s|, 1
  {
    if s != [] && s[0] == CLOSE_LIST then Some(([], s[1..]))
    else
      var start := AfterSeparator(s, index);
      if start.None? then None else
      var first := ReadValue(start.value);
      if first.None? then None else
      var others := ReadItems(first.value.1, index + 1);
      if others.None? then None else Some(([first.value.0] + others.value.0, others.value.1))
  }

  function ReadMembers(s: Text, index: nat): (r: Option<(map<Text, Json>, Text)>)
    ensures r.Some? ==> |r.value.1| < |s|
    decreases |s|, 1
  {
    if s != [] && s[0] == CLOSE_OBJECT then Some((map[], s[1..]))
    else
      var start := AfterSeparator(s, index);
      if start.None? then None else
      var key := ReadString(start.value);
      if key.None? || key.value.1 == [] || key.value.1[0] != COLON then None else
      var first := ReadValue(key.value.1[1..]);
      if first.None? then None else
      var others := ReadMembers(first.value.1, index + 1);
      if others.None? then None
      else Some((map[key.value.0 := first.value.0] + others.value.0, others.value.1))
  }

  // ----- The round trip ---------------------------------------------------------------------------

  lemma {:induction false} DigitsReadBack(n: nat, rest: Text)
    ensures ReadDigits(Digits(n) + rest, 0) == ReadDigits(rest, n)
    ensures StartsWithDigit(Digits(n)) && |Digits(n)| >= 1
  {
    if n >= 10 {
      var last: Text := [ZERO + n % 10];
      DigitsReadBack(n / 10, last + rest);
      assert Digits(n) + rest == Digits(n / 10) + (last + rest);
      assert (last + rest)[1..] == rest;
    } else {
      assert (Digits(n) + rest)[1..] == rest;
    }
  }

  lemma NumeralReadsBack(i: int, rest: Text)
    requires !StartsWithDigit(rest)
    ensures ReadValue(Numeral(i) + rest) == Some((Int(i), rest))
  {
    var n := if i < 0 then -i else i;
    var s := Digits(n) + rest;
    DigitsReadBack(n, rest);
    assert s[0] == Digits(n)[0];
    assert ReadDigits(s, 0) == (n, rest);
    if i < 0 {
      assert Numeral(i) + rest == [MINUS] + s;
      assert ([MINUS] + s)[1..] == s;
    }
  }

  lemma TailOf(head: Text, body: Text, close: Text, rest: Text)
    ensures head + body + close + rest == head + (body + close + rest)
  {}

  lemma EscapeReadsBack(c: CodePoint, tail: Text)
    requires !IsSurrogate(c)
    ensures ReadCharacters(Escape(c) + tail) == Prefixed(c, ReadCharacters(tail))
  {
    var all := Escape(c) + tail;
    assert all[|Escape(c)|..] == tail;
    assert forall i | 0 <= i < |Escape(c)| :: all[i] == Escape(c)[i];
  }

  lemma {:induction false} CharactersReadBack(s: Text, rest: Text)
    requires SurrogateFree(s)
    ensures ReadCharacters(Escaped(s) + [QUOTE] + rest) == Some((s, rest))
  {
    if s == [] {
      assert (Escaped(s) + [QUOTE] + rest)[1..] == rest;
    } else {
      var tail := Escaped(s[1..]) + [QUOTE] + rest;
      CharactersReadBack(s[1..], rest);
      EscapeReadsBack(s[0], tail);
      TailOf(Escape(s[0]), Escaped(s[1..]), [QUOTE], rest);
      assert s == [s[0]] + s[1..];
    }
  }

  lemma StringReadsBack(s: Text, rest: Text)
    requires SurrogateFree(s)
    ensures ReadString(Quoted(s) + rest) == Some((s, rest))
  {
    CharactersReadBack(s, rest);
    assert (Quoted(s) + rest)[1..] == Escaped(s) + [QUOTE] + rest;
  }

  lemma WordReadsBack(v: Json, rest: Text)
    requires v.Null? || v.Bool?
    ensures ReadValue(Form(v) + rest) == Some((v, rest))
  {
    var s := Form(v) + rest;
    assert s[0] == Form(v)[0];
    assert s[..|Form(v)|] == Form(v) && s[|Form(v)|..] == rest;
    assert NULL_WORD[0] == 0x6E && TRUE_WORD[0] == 0x74 && FALSE_WORD[0] == 0x66;
  }

  /** How the reader goes on after a bracket or a quote. */
  lemma Dispatch(s: Text)
    requires s != []
    ensures s[0] == QUOTE ==>
              ReadValue(s) == var r := ReadString(s); if r.Some? then Some((Str(r.value.0), r.value.1)) else None
    ensures s[0] == OPEN_LIST ==>
              ReadValue(s) == var r := ReadItems(s[1..], 0); if r.Some? then Some((List(r.value.0), r.value.1)) else None
    ensures s[0] == OPEN_OBJECT ==>
              ReadValue(s)
              == var r := ReadMembers(s[1..], 0); if r.Some? then Some((Object(r.value.0), r.value.1)) else None
  {}

  lemma Unwrap(open: CodePoint, body: Text, close: Text, rest: Text)
    ensures ([open] + body + close + rest)[0] == open
    ensures ([open] + body + close + rest)[1..] == body + close + rest
  {}

  /** Reading the form of a value, whatever follows it but a digit, gives the value and what follows. */
  lemma {:induction false} RoundTrip(v: Json, rest: Text)
    requires Representable(v) && !StartsWithDigit(rest)
    ensures ReadValue(Form(v) + rest) == Some((v, rest))
    decreases v, 1
  {
    var s := Form(v) + rest;
    match v
    case Null => WordReadsBack(v, rest);
    case Bool(b) => WordReadsBack(v, rest);
    case Int(i) => NumeralReadsBack(i, rest);
    case Str(text) =>
      StringReadsBack(text, rest);
      Dispatch(s);
    case List(items) =>
      ItemsRoundTrip(items, 0, rest);
      Unwrap(OPEN_LIST, FormItems(items, 0), [CLOSE_LIST], rest);
      Dispatch(s);
    case Object(members) =>
      var keys := Sorted(members.Keys);
      MembersRoundTrip(v, keys, 0, rest);
      Unwrap(OPEN_OBJECT, FormMembers(v, keys, 0), [CLOSE_OBJECT], rest);
      AllRemain(v, keys);
      Dispatch(s);
  }

  lemma FormStart(v: Json)
    requires Representable(v)
    ensures Form(v) != [] && Form(v)[0] != CLOSE_LIST && Form(v)[0] != CLOSE_OBJECT
  {
    if v.Int? { DigitsReadBack(if v.i < 0 then -v.i else v.i, []); }
  }

  /** What follows an element never starts with a digit. */
  lemma TailStart(items: seq<Json>, index: nat, rest: Text)
    requires 0 < index <= |items|
    ensures !StartsWithDigit(FormItems(items, index) + [CLOSE_LIST] + rest)
  {
    if index < |items| { assert FormItems(items, index)[0] == COMMA; }
  }

  lemma MemberTailStart(v: Json, keys: seq<Text>, index: nat, rest: Text)
    requires v.Object? && 0 < index <= |keys| && forall k | k in keys :: k in v.members
    ensures !StartsWithDigit(FormMembers(v, keys, index) + [CLOSE_OBJECT] + rest)
  {
    if index < |keys| { assert FormMembers(v, keys, index)[0] == COMMA; }
  }

  /** One step of the reader over a list. */
  lemma ItemsStep(s: Text, index: nat, form: Text, item: Json, tail: Text)
    requires s == Separator(index) + form + tail && form != [] && form[0] != CLOSE_LIST
    requires ReadValue(form + tail) == Some((item, tail))
    ensures ReadItems(s, index)
         == var r := ReadItems(tail, index + 1);
            if r.Some? then Some(([item] + r.value.0, r.value.1)) else None
  {
    if index > 0 {
      assert s[1..] == form + tail && s[0] == COMMA;
    } else {
      assert s == form + tail;
    }
    assert AfterSeparator(s, index) == Some(form + tail);
  }

  lemma {:induction false} ItemsRoundTrip(items: seq<Json>, index: nat, rest: Text)
    requires index <= |items| && forall i | 0 <= i < |items| :: Representable(items[i])
    ensures ReadItems(FormItems(items, index) + [CLOSE_LIST] + rest, index) == Some((items[index..], rest))
    decreases items, |items| - index
  {
    var s := FormItems(items, index) + [CLOSE_LIST] + rest;
    if index == |items| {
      assert s[0] == CLOSE_LIST && s[1..] == rest;
      assert items[index..] == [];
    } else {
      var tail := FormItems(items, index + 1) + [CLOSE_LIST] + rest;
      TailOf(Separator(index) + Form(items[index]), FormItems(items, index + 1), [CLOSE_LIST], rest);
      FormStart(items[index]);
      TailStart(items, index + 1, rest);
      RoundTrip(items[index], tail);
      ItemsStep(s, index, Form(items[index]), items[index], tail);
      ItemsRoundTrip(items, index + 1, rest);
      assert items[index..] == [items[index]] + items[index + 1..];
    }
  }

  /** The members whose keys come from `index` on. */
  function Remaining(v: Json, keys: seq<Text>, index: nat): map<Text, Json>
    requires v.Object? && index <= |keys| && forall k | k in keys :: k in v.members
  {
    map k | k in keys[index..] :: v.members[k]
  }

  lemma AllRemain(v: Json, keys: seq<Text>)
    requires v.Object? && forall k :: k in keys <==> k in v.members
    ensures Remaining(v, keys, 0) == v.members
  {
    assert keys[0..] == keys;
  }

  lemma OneMoreRemains(v: Json, keys: seq<Text>, index: nat)
    requires v.Object? && index < |keys| && forall k | k in keys :: k in v.members
    ensures map[keys[index] := v.members[keys[index]]] + Remaining(v, keys, index + 1) == Remaining(v, keys, index)
  {
    assert keys[index..] == [keys[index]] + keys[index + 1..];
  }

  lemma MemberSplit(separator: Text, name: Text, form: Text, tail: Text)
    ensures separator + (name + [COLON] + form) + tail == separator + (name + ([COLON] + (form + tail)))
    ensures ([COLON] + (form + tail))[1..] == form + tail
    ensures separator == [] ==> separator + (name + [COLON] + form) + tail == name + ([COLON] + (form + tail))
  {}

  /** One step of the reader over an object. */
  lemma MembersStep(s: Text, index: nat, key: Text, form: Text, value: Json, tail: Text)
    requires s == Separator(index) + (Quoted(key) + [COLON] + form) + tail && SurrogateFree(key)
    requires ReadValue(form + tail) == Some((value, tail))
    ensures ReadMembers(s, index)
         == var r := ReadMembers(tail, index + 1);
            if r.Some? then Some((map[key := value] + r.value.0, r.value.1)) else None
  {
    var body := [COLON] + (form + tail);
    StringReadsBack(key, body);
    MemberSplit(Separator(index), Quoted(key), form, tail);
    if index > 0 {
      assert s[0] == COMMA && s[1..] == Quoted(key) + body;
    }
  }

  lemma {:induction false} MembersRoundTrip(v: Json, keys: seq<Text>, index: nat, rest: Text)
    requires v.Object? && Representable(v)
    requires index <= |keys| && forall k | k in keys :: k in v.members
    ensures ReadMembers(FormMembers(v, keys, index) + [CLOSE_OBJECT] + rest, index)
         == Some((Remaining(v, keys, index), rest))
    decreases v, 0, |keys| - index
  {
    var s := FormMembers(v, keys, index) + [CLOSE_OBJECT] + rest;
    if index == |keys| {
      assert s[0] == CLOSE_OBJECT && s[1..] == rest;
      assert Remaining(v, keys, index) == map[];
    } else {
      var tail := FormMembers(v, keys, index + 1) + [CLOSE_OBJECT] + rest;
      var key := keys[index];
      assert key in keys;
      var form := Form(v.members[key]);
      TailOf(Separator(index) + FormMember(v, key), FormMembers(v, keys, index + 1), [CLOSE_OBJECT], rest);
      MemberTailStart(v, keys, index + 1, rest);
      RoundTrip(v.members[key], tail);
      MembersStep(s, index, key, form, v.members[key], tail);
      MembersRoundTrip(v, keys, index + 1, rest);
      OneMoreRemains(v, keys, index);
    }
  }

  // ----- What equal bytes mean ----------------------------------------------------------------------

  /** Two values with a canonical text have the same one exactly when they are equal. */
  lemma TextDeterminesValue(a: Json, b: Json)
    requires CanonicalText(a).Some? && CanonicalText(b).Some?
    ensures CanonicalText(a) == CanonicalText(b) <==> a == b
  {
    RoundTrip(a, []);
    RoundTrip(b, []);
  }

  // ----- Section 7 of RFC 8259 ------------------------------------------------------------------------

  /** An unescaped character of section 7 of RFC 8259: no control, no quote, no backslash. */
  predicate IsUnescaped(c: CodePoint) {
    c >= 0x20 && c != QUOTE && c != BACKSLASH
  }

  /** `*char quotation-mark` of section 7 of RFC 8259, with the two escapes the canonical form uses. */
  predicate IsStringTail(s: Text) {
    s != [] &&
    if s[0] == QUOTE then s == [QUOTE]
    else if s[0] == BACKSLASH then
      || (|s| >= 2 && s[1] in {QUOTE, BACKSLASH} && IsStringTail(s[2..]))
      || (|s| >= 6 && s[1] == LOWER_U && (forall i | 2 <= i < 6 :: HexValue(s[i]).Some?) && IsStringTail(s[6..]))
    else IsUnescaped(s[0]) && IsStringTail(s[1..])
  }

  lemma {:induction false} EscapedIsStringTail(s: Text)
    ensures IsStringTail(Escaped(s) + [QUOTE])
  {
    var all := Escaped(s) + [QUOTE];
    if s == [] {
      assert all == [QUOTE];
    } else {
      EscapedIsStringTail(s[1..]);
      assert all == Escape(s[0]) + (Escaped(s[1..]) + [QUOTE]);
      EscapeThenTail(s[0], Escaped(s[1..]) + [QUOTE]);
    }
  }

  lemma EscapeThenTail(c: CodePoint, tail: Text)
    requires IsStringTail(tail)
    ensures IsStringTail(Escape(c) + tail)
  {
    var all := Escape(c) + tail;
    assert all[|Escape(c)|..] == tail;
    assert forall i | 0 <= i < |Escape(c)| :: all[i] == Escape(c)[i];
  }

  /** Every string is written as a JSON string of section 7 of RFC 8259. */
  lemma QuotedIsJsonString(s: Text)
    ensures Quoted(s)[0] == QUOTE && IsStringTail(Quoted(s)[1..])
  {
    EscapedIsStringTail(s);
    assert Quoted(s)[1..] == Escaped(s) + [QUOTE];
  }
}
