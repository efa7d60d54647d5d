/**
 A reader of JSON texts without white space (RFC 8259, sections 3 to 7), and what it makes of the canonical printer's
 text: the printed value itself, with the keys of every object in ascending order.
 */
module CanonicalReader {
  import opened Common
  import opened CanonicalJson

  // ----- Strings --------------------------------------------------------------------------------

  function HexValue(c: char): Option<int> {
    if '0' <= c <= '9' then Some(c as int - 48)
    else if 'a' <= c <= 'f' then Some(c as int - 87)
    else if 'A' <= c <= 'F' then Some(c as int - 55)
    else None
  }

  /** Four hexadecimal digits that stand for a character of their own. */
  function CodeOf(s: string): (code: Option<char>)
    requires |s| >= 4
  {
    match (HexValue(s[0]), HexValue(s[1]), HexValue(s[2]), HexValue(s[3]))
    case (Some(a), Some(b), Some(c), Some(d)) =>
      var n := ((a * 16 + b) * 16 + c) * 16 + d;
      if 0 <= n < 0xD800 || 0xE000 <= n < 0x10000 then Some(n as char) else None
    case _ => None
  }

  /** What follows a backslash: the character it stands for, and the rest. */
  function ReadEscape(s: string): (r: Option<(char, string)>)
    ensures r.Some? ==> |r.value.1| < |s|
  {
    if s == "" then None
    else if s[0] == '\"' || s[0] == '\\' || s[0] == '/' then Some((s[0], s[1..]))
    else if s[0] == 'b' then Some((8 as char, s[1..]))
    else if s[0] == 'f' then Some((12 as char, s[1..]))
    else if s[0] == 'n' then Some(('\n', s[1..]))
    else if s[0] == 'r' then Some(('\r', s[1..]))
    else if s[0] == 't' then Some(('\t', s[1..]))
    else if s[0] == 'u' && |s| >= 5 && CodeOf(s[1..]).Some? then Some((CodeOf(s[1..]).value, s[5..]))
    else None
  }

  function Prepend(c: char, r: Option<(string, string)>): Option<(string, string)> {
    if r.Some? then Some(([c] + r.value.0, r.value.1)) else None
  }

  /** The characters up to the closing quote, and the rest after it. */
  function ReadChars(s: string): (r: Option<(string, string)>)
    ensures r.Some? ==> |r.value.1| < |s|
    decreases |s|
  {
    if s == "" || s[0] < ' ' then None
    else if s[0] == '\"' then Some(("", s[1..]))
    else if s[0] == '\\' then
      var escape := ReadEscape(s[1..]);
      if escape.None? then None else Prepend(escape.value.0, ReadChars(escape.value.1))
    else Prepend(s[0], ReadChars(s[1..]))
  }

  // ----- Values -----------------------------------------------------------------------------------

  function NumeralEnd(s: string, i: nat): (end: nat)
    requires i <= |s|
    ensures i <= end <= |s| && forall k :: i <= k < end ==> s[k] in "0123456789+-.e"
    decreases |s| - i
  {
    if i < |s| && s[i] in "0123456789+-.e" then NumeralEnd(s, i + 1) else i
  }

  function ReadNumber(s: string): (r: Option<(Json, string)>)
    ensures r.Some? ==> |r.value.1| < |s|
  {
    if s == "" || s[0] !in "-0123456789" then None
    else
      var end := NumeralEnd(s, 1);
      assert IsNumeral(s[..end]);
      Some((Number(s[..end]), s[end..]))
  }

  function ReadValue(s: string): (r: Option<(Json, string)>)
    ensures r.Some? ==> |r.value.1| < |s|
    decreases |s|, 0
  {
    if s == "" then None
    else if s[0] == '\"' then
      var chars := ReadChars(s[1..]);
      if chars.None? then None else Some((String(chars.value.0), chars.value.1))
    else if s[0] == '[' then
      if |s| > 1 && s[1] == ']' then Some((Array([]), s[2..]))
      else
        var items := ReadItems(s[1..]);
        if items.None? then None else Some((Array(items.value.0), items.value.1))
    else if s[0] == '{' then
      if |s| > 1 && s[1] == '}' then Some((Object([]), s[2..]))
      else
        var fields := ReadFields(s[1..]);
        if fields.None? then None else Some((Object(fields.value.0), fields.value.1))
    else if "null" <= s then Some((Null, s[4..]))
    else if "true" <= s then Some((Bool(true), s[4..]))
    else if "false" <= s then Some((Bool(false), s[5..]))
    else ReadNumber(s)
  }

  /** Items with commas between them, through the closing bracket. */
  function ReadItems(s: string): (r: Option<(seq<Json>, string)>)
    ensures r.Some? ==> |r.value.1| < |s|
    decreases |s|, 1
  {
    var first := ReadValue(s);
    if first.None? || first.value.1 == "" then None
    else
      var rest := first.value.1;
      if rest[0] == ']' then Some(([first.value.0], rest[1..]))
      else if rest[0] != ',' then None
      else
        var more := ReadItems(rest[1..]);
        if more.None? then None else Some(([first.value.0] + more.value.0, more.value.1))
  }

  /** A name, a colon and a value. */
  function ReadField(s: string): (r: Option<(Field, string)>)
    ensures r.Some? ==> |r.value.1| < |s|
    decreases |s|, 1
  {
    if s == "" || s[0] != '\"' then None
    else
      var name := ReadChars(s[1..]);
      if name.None? || name.value.1 == "" || name.value.1[0] != ':' then None
      else
        var value := ReadValue(name.value.1[1..]);
        if value.None? then None else Some((Field(name.value.0, value.value.0), value.value.1))
  }

  /** Fields with commas between them, through the closing brace. */
  function ReadFields(s: string): (r: Option<(seq<Field>, string)>)
    ensures r.Some? ==> |r.value.1| < |s|
    decreases |s|, 2
  {
    var first := ReadField(s);
    if first.None? || first.value.1 == "" then None
    else
      var rest := first.value.1;
      if rest[0] == '}' then Some(([first.value.0], rest[1..]))
      else if rest[0] != ',' then None
      else
        var more := ReadFields(rest[1..]);
        if more.None? then None else Some(([first.value.0] + more.value.0, more.value.1))
  }

  /** The value of a whole text. */
  function Parse(text: string): Option<Json> {
    var r := ReadValue(text);
    if r.Some? && r.value.1 == "" then Some(r.value.0) else None
  }

  // ----- Printed strings read back ------------------------------------------------------------------

  lemma {:induction false} HexReads(n: int)
    requires 0 <= n < 16
    ensures HexValue(HexDigit(n)) == Some(n)
  {
  }

  lemma {:induction false} ControlReads(c: char, y: string)
    requires c < ' '
    ensures ReadEscape("u00" + [HexDigit(c as int / 16), HexDigit(c as int % 16)] + y) == Some((c, y))
  {
    var high, low := c as int / 16, c as int % 16;
    var s := "u00" + [HexDigit(high), HexDigit(low)] + y;
    HexReads(high);
    HexReads(low);
    assert s[1..][0] == '0' && s[1..][1] == '0' && s[1..][2] == HexDigit(high) && s[1..][3] == HexDigit(low);
    assert s[5..] == y;
  }

  lemma {:induction false} CharReads(c: char, y: string)
    ensures ReadChars(Escape(c) + y) == Prepend(c, ReadChars(y))
  {
    var s := Escape(c) + y;
    if |Escape(c)| == 1 {
      assert s[1..] == y;
    } else if |Escape(c)| == 2 {
      assert s[1..][0] == Escape(c)[1] && s[1..][1..] == y;
    } else {
      ControlReads(c, y);
      assert s[1..] == "u00" + [HexDigit(c as int / 16), HexDigit(c as int % 16)] + y;
    }
  }

  lemma {:induction false} CharsRead(s: string, x: string)
    ensures ReadChars(EscapeAll(s) + "\"" + x) == Some((s, x))
  {
    QuotedTextSteps(s, x);
    if s == "" {
      assert ("\"" + x)[1..] == x;
    } else {
      CharReads(s[0], EscapeAll(s[1..]) + "\"" + x);
      CharsRead(s[1..], x);
      assert s == [s[0]] + s[1..];
    }
  }

  predicate IsNumeralChar(c: char) {
    c in "0123456789+-.e"
  }

  lemma {:induction false} NumeralReads(t: string, x: string, i: nat)
    requires i <= |t| && (forall k :: 0 <= k < |t| ==> IsNumeralChar(t[k])) && (x == "" || !IsNumeralChar(x[0]))
    ensures NumeralEnd(t + x, i) == |t|
    decreases |t| - i
  {
    if i < |t| {
      assert (t + x)[i] == t[i] && IsNumeralChar(t[i]);
      NumeralReads(t, x, i + 1);
    } else if x != "" {
      assert (t + x)[i] == x[0];
    }
  }

  lemma {:induction false} NumeralIsRead(t: Numeral, x: string)
    requires Delimited(x)
    ensures ReadNumber(t + x) == Some((Number(t), x))
  {
    assert forall k :: 0 <= k < |t| ==> IsNumeralChar(t[k]);
    NumeralReads(t, x, 1);
    assert (t + x)[0] == t[0] && (t + x)[..|t|] == t && (t + x)[|t|..] == x;
  }

  /** A text that starts like no other value is read as a number. */
  lemma {:induction false} ElseNumber(s: string)
    requires s != "" && s[0] != '\"' && s[0] != '[' && s[0] != '{' && s[0] != 'n' && s[0] != 't' && s[0] != 'f'
    ensures ReadValue(s) == ReadNumber(s)
  {
    hide ReadNumber, ReadChars, ReadItems, ReadFields;
    assert "null"[0] == 'n' && "true"[0] == 't' && "false"[0] == 'f';
  }

  lemma {:induction false} NumberReads(t: Numeral, x: string)
    requires Delimited(x)
    ensures ReadValue(t + x) == Some((Number(t), x))
  {
    hide ReadNumber, ReadValue;
    NumeralIsRead(t, x);
    assert (t + x)[0] == t[0] && t[0] in "-0123456789";
    ElseNumber(t + x);
  }

  lemma {:induction false} WordReads(v: Json, x: string)
    requires v.Null? || v.Bool?
    ensures ReadValue(Canonical(v) + x) == Some((v, x))
  {
    var s := Canonical(v) + x;
    assert s[|Canonical(v)|..] == x && Canonical(v) <= s;
    assert "null"[0] == 'n' && "true"[0] == 't' && "false"[0] == 'f';
  }

  // ----- Printed values read back ---------------------------------------------------------------------

  /** The value with the fields of every object in ascending order. */
  function Sorted(v: Json): Json
    decreases v, 0
  {
    match v
    case Array(items) => Array(SortedItems(items))
    case Object(fields) =>
      KeysAreFields(fields);
      Object(SortedFields(fields, Sort(Keys(fields))))
    case _ => v
  }

  function SortedItems(items: seq<Json>): (r: seq<Json>)
    ensures |r| == |items|
    decreases items, 0
  {
    if items == [] then [] else [Sorted(items[0])] + SortedItems(items[1..])
  }

  function SortedFields(fields: seq<Field>, keys: seq<string>): (r: seq<Field>)
    requires forall k :: k in keys ==> Has(fields, k)
    ensures Keys(r) == keys
    decreases fields, |keys|
  {
    if keys == [] then [] else [Field(keys[0], Sorted(Get(fields, keys[0])))] + SortedFields(fields, keys[1..])
  }

  lemma {:induction false} ValueReads(v: Json, x: string)
    requires Delimited(x)
    ensures ReadValue(Canonical(v) + x) == Some((Sorted(v), x))
    decreases v, 1
  {
    match v
    case Null => WordReads(v, x);
    case Bool(_) => WordReads(v, x);
    case Number(text) => NumberReads(text, x);
    case String(chars) =>
      CharsRead(chars, x);
      Regroup("\"", EscapeAll(chars) + "\"", x);
      Regroup("\"", EscapeAll(chars), "\"");
      assert (Canonical(v) + x)[1..] == EscapeAll(chars) + "\"" + x;
    case Array(items) =>
      RegroupEnclosed("[", ItemsText(items), "]", x);
      assert (Canonical(v) + x)[1..] == ItemsText(items) + "]" + x;
      ArrayReads(items, x);
    case Object(fields) =>
      var keys := Sort(Keys(fields));
      KeysAreFields(fields);
      RegroupEnclosed("{", EntriesText(fields, keys), "}", x);
      assert (Canonical(v) + x)[1..] == EntriesText(fields, keys) + "}" + x;
      ObjectReads(fields, keys, x);
  }

  lemma {:induction false} ArrayReads(items: seq<Json>, x: string)
    ensures ReadValue("[" + (ItemsText(items) + "]" + x)) == Some((Array(SortedItems(items)), x))
    decreases items, 1
  {
    var rest := ItemsText(items) + "]" + x;
    assert ("[" + rest)[1..] == rest && ("[" + rest)[1] == rest[0];
    ItemsTextSteps(items, x);
    if items == [] {
      assert ("[" + rest)[2..] == x;
    } else {
      ItemsRead(items, x);
    }
  }

  lemma {:induction false} ItemsRead(items: seq<Json>, x: string)
    requires items != []
    ensures ReadItems(ItemsText(items) + "]" + x) == Some((SortedItems(items), x))
    decreases items, 0
  {
    ItemsTextSteps(items, x);
    ValueReads(items[0], ItemsTail(items, x));
    if |items| == 1 {
      assert ("]" + x)[1..] == x;
      assert SortedItems(items) == [Sorted(items[0])];
    } else {
      ItemsRead(items[1..], x);
      assert ItemsTail(items, x)[1..] == ItemsText(items[1..]) + "]" + x;
    }
  }

  lemma {:induction false} ObjectReads(fields: seq<Field>, keys: seq<string>, x: string)
    requires forall k :: k in keys ==> Has(fields, k)
    ensures ReadValue("{" + (EntriesText(fields, keys) + "}" + x)) == Some((Object(SortedFields(fields, keys)), x))
    decreases fields, |keys| + 1
  {
    var rest := EntriesText(fields, keys) + "}" + x;
    assert ("{" + rest)[1..] == rest && ("{" + rest)[1] == rest[0];
    NoEntries(fields, keys, x);
    if keys == [] {
      assert ("{" + rest)[2..] == x;
    } else {
      FieldsRead(fields, keys, x);
    }
  }

  lemma {:induction false} FieldReads(key: string, value: Json, x: string)
    requires ReadValue(Canonical(value) + x) == Some((Sorted(value), x))
    ensures ReadField("\"" + (EscapeAll(key) + "\"" + (":" + (Canonical(value) + x))))
      == Some((Field(key, Sorted(value)), x))
  {
    var after := ":" + (Canonical(value) + x);
    var s := "\"" + (EscapeAll(key) + "\"" + after);
    CharsRead(key, after);
    assert s[1..] == EscapeAll(key) + "\"" + after;
    assert after[1..] == Canonical(value) + x;
  }

  lemma {:induction false} FieldsRead(fields: seq<Field>, keys: seq<string>, x: string)
    requires keys != [] && forall k :: k in keys ==> Has(fields, k)
    ensures ReadFields(EntriesText(fields, keys) + "}" + x) == Some((SortedFields(fields, keys), x))
    decreases fields, |keys|
  {
    hide ReadField, Canonical, Delimited;
    var value, tail := Get(fields, keys[0]), EntriesTail(fields, keys, x);
    EntriesTextSteps(fields, keys, x);
    ValueReads(value, tail);
    FieldReads(keys[0], value, tail);
    if |keys| == 1 {
      assert ("}" + x)[1..] == x;
      assert SortedFields(fields, keys) == [Field(keys[0], Sorted(value))];
    } else {
      FieldsRead(fields, keys[1..], x);
      assert tail[1..] == EntriesText(fields, keys[1..]) + "}" + x;
    }
  }

  // ----- What is read is the value ----------------------------------------------------------------------

  /** The keys of every object are in ascending order, at any depth. */
  ghost predicate InOrder(v: Json) {
    match v
    case Array(items) => forall item :: item in items ==> InOrder(item)
    case Object(fields) => Ascending(Keys(fields)) && forall f :: f in fields ==> InOrder(f.value)
    case _ => true
  }

  lemma {:induction false} SortedIsSame(v: Json)
    requires WellFormed(v)
    ensures Same(v, Sorted(v)) && InOrder(Sorted(v))
    decreases v, 1
  {
    match v
    case Array(items) => ItemsAreSame(items);
    case Object(fields) =>
      var keys := Sort(Keys(fields));
      KeysAreFields(fields);
      SortAscending(Keys(fields));
      FieldsAreSame(fields, keys);
      var sorted := SortedFields(fields, keys);
      forall k ensures Has(fields, k) <==> Has(sorted, k) {
        HasIsMembership(sorted, k);
      }
    case _ =>
  }

  lemma {:induction false} ItemsAreSame(items: seq<Json>)
    requires forall item :: item in items ==> WellFormed(item)
    ensures forall i :: 0 <= i < |items| ==> Same(items[i], SortedItems(items)[i])
    ensures forall item :: item in SortedItems(items) ==> InOrder(item)
    decreases items, 0
  {
    if items != [] {
      SortedIsSame(items[0]);
      ItemsAreSame(items[1..]);
      forall i | 0 <= i < |items| ensures Same(items[i], SortedItems(items)[i]) {
        if i > 0 {
          assert Same(items[1..][i - 1], SortedItems(items[1..])[i - 1]);
        }
      }
    }
  }

  lemma {:induction false} FieldsAreSame(fields: seq<Field>, keys: seq<string>)
    requires forall k :: k in keys ==> Has(fields, k)
    requires forall f :: f in fields ==> WellFormed(f.value)
    ensures var sorted := SortedFields(fields, keys);
      && (forall k :: k in keys ==> Has(sorted, k) && Same(Get(fields, k), Get(sorted, k)))
      && forall f :: f in sorted ==> InOrder(f.value)
    decreases fields, |keys|
  {
    if keys != [] {
      SortedIsSame(Get(fields, keys[0]));
      FieldsAreSame(fields, keys[1..]);
    }
  }

  /** The printed text of a value is a JSON text of this value, with the keys of every object in ascending order. */
  lemma {:induction false} CanonicalReadsBack(v: Json)
    requires WellFormed(v)
    ensures var read := Parse(Canonical(v));
      read.Some? && Same(v, read.value) && InOrder(read.value)
  {
    ValueReads(v, "");
    assert Canonical(v) + "" == Canonical(v);
    SortedIsSame(v);
  }
}
