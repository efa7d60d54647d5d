/**
 The canonical JSON printer that every release checksum is taken over: objects are printed with
 their keys sorted, arrays in order, and scalars as JSON.stringify prints them.  The main result
 is that two JSON values print the same text exactly when they are equal with objects read as maps.

 A number is represented by the text ECMAScript prints for it (RFC 8259, section 6), so two
 numbers are equal exactly when their texts are.
 */
module CanonicalJson {
  import opened Common

  datatype Json =
    | Null
    | Bool(flag: bool)
    | Number(text: Numeral)
    | String(chars: string)
    | Array(items: seq<Json>)
    | Object(fields: seq<Field>)

  /** One property of an object; properties are kept in insertion order, as JavaScript does. */
  datatype Field = Field(key: string, value: Json)

  type Numeral = t: string | IsNumeral(t) witness "0"

  predicate IsNumeral(t: string) {
    && t != ""
    && t[0] in "-0123456789"
    && forall i :: 0 <= i < |t| ==> t[i] in "0123456789+-.e"
  }

  // ----- Properties of an object ------------------------------------------------------------

  function Keys(fields: seq<Field>): (keys: seq<string>)
    ensures |keys| == |fields|
    ensures forall i :: 0 <= i < |fields| ==> keys[i] == fields[i].key
  {
    seq(|fields|, i requires 0 <= i < |fields| => fields[i].key)
  }

  predicate Has(fields: seq<Field>, key: string) {
    fields != [] && (fields[0].key == key || Has(fields[1..], key))
  }

  lemma {:induction false} HasIsMembership(fields: seq<Field>, key: string)
    ensures Has(fields, key) <==> key in Keys(fields)
  {
    if fields != [] {
      HasIsMembership(fields[1..], key);
      assert Keys(fields) == [fields[0].key] + Keys(fields[1..]);
    }
  }

  function Get(fields: seq<Field>, key: string): (value: Json)
    requires Has(fields, key)
    ensures Field(key, value) in fields
  {
    if fields[0].key == key then fields[0].value else Get(fields[1..], key)
  }

  /** What JavaScript guarantees of every object: no key occurs twice, at any depth. */
  ghost predicate WellFormed(v: Json) {
    match v
    case Array(items) => forall item :: item in items ==> WellFormed(item)
    case Object(fields) =>
      && Distinct(Keys(fields))
      && forall f :: f in fields ==> WellFormed(f.value)
    case _ => true
  }

  /** Equality of JSON values with objects read as maps from key to value. */
  ghost predicate Same(a: Json, b: Json)
    decreases a
  {
    match a
    case Array(items) =>
      && b.Array?
      && |items| == |b.items|
      && forall i :: 0 <= i < |items| ==> Same(items[i], b.items[i])
    case Object(fields) =>
      && b.Object?
      && (forall k :: Has(fields, k) <==> Has(b.fields, k))
      && forall k :: Has(fields, k) ==> Same(Get(fields, k), Get(b.fields, k))
    case _ => a == b
  }

  // ----- Sorting keys -----------------------------------------------------------------------

  /**
   Array.prototype.sort compares UTF-16 code units.  That is the order of code points except that
   the characters above U+FFFF, which start with a surrogate, come before U+E000..U+FFFF.
   */
  function Rank(c: char): int {
    if 0xE000 <= c as int < 0x10000 then c as int + 0x110000 else c as int
  }

  predicate Before(s: string, t: string) {
    t != "" &&
    (s == "" || Rank(s[0]) < Rank(t[0]) || (s[0] == t[0] && Before(s[1..], t[1..])))
  }

  lemma {:induction false} BeforeIsStrict(s: string, t: string)
    ensures !(Before(s, t) && Before(t, s))
    ensures s != t ==> Before(s, t) || Before(t, s)
    ensures !Before(s, s)
    decreases |s|
  {
    if s != "" {
      BeforeIsStrict(s[1..], s[1..]);
      if t != "" {
        BeforeIsStrict(s[1..], t[1..]);
        assert s == [s[0]] + s[1..] && t == [t[0]] + t[1..];
      }
    }
  }

  lemma {:induction false} BeforeIsTransitive(s: string, t: string, u: string)
    requires Before(s, t) && Before(t, u)
    ensures Before(s, u)
  {
    if s != "" && s[0] == t[0] && t[0] == u[0] {
      BeforeIsTransitive(s[1..], t[1..], u[1..]);
    }
  }

  function Insert(k: string, keys: seq<string>): (r: seq<string>)
    ensures multiset(r) == multiset(keys) + multiset{k}
  {
    if keys == [] || Before(k, keys[0]) then [k] + keys
    else
      assert keys == [keys[0]] + keys[1..];
      [keys[0]] + Insert(k, keys[1..])
  }

  function Sort(keys: seq<string>): (r: seq<string>)
    ensures multiset(r) == multiset(keys)
  {
    if keys == [] then []
    else
      assert keys == [keys[0]] + keys[1..];
      Insert(keys[0], Sort(keys[1..]))
  }

  ghost predicate Ascending(keys: seq<string>) {
    forall i, j :: 0 <= i < j < |keys| ==> Before(keys[i], keys[j])
  }

  lemma {:induction false} SameMembers<T>(a: seq<T>, b: seq<T>, x: T)
    requires multiset(a) == multiset(b)
    ensures x in a <==> x in b
  {
    assert x in a <==> x in multiset(a);
    assert x in b <==> x in multiset(b);
  }

  lemma {:induction false} InsertAscending(k: string, keys: seq<string>)
    requires Ascending(keys) && k !in keys
    ensures Ascending(Insert(k, keys))
  {
    if keys != [] {
      BeforeIsStrict(k, keys[0]);
      var rest := keys[1..];
      if Before(k, keys[0]) {
        forall j | 0 < j < |keys| ensures Before(k, keys[j]) {
          BeforeIsTransitive(k, keys[0], keys[j]);
        }
      } else {
        InsertAscending(k, rest);
        var tail := Insert(k, rest);
        forall j | 0 <= j < |tail| ensures Before(keys[0], tail[j]) {
          assert tail[j] in multiset(tail);
          if tail[j] != k {
            assert tail[j] in multiset(rest);
          }
        }
      }
    }
  }

  lemma {:induction false} SortAscending(keys: seq<string>)
    requires Distinct(keys)
    ensures Ascending(Sort(keys))
  {
    if keys != [] {
      SortAscending(keys[1..]);
      SameMembers(Sort(keys[1..]), keys[1..], keys[0]);
      InsertAscending(keys[0], Sort(keys[1..]));
    }
  }

  lemma {:induction false} FirstIsMember(keys: seq<string>)
    ensures keys != [] ==> keys[0] in keys
  {
  }

  /** A set of keys has one ascending listing. */
  lemma {:induction false} AscendingIsUnique(a: seq<string>, b: seq<string>)
    requires Ascending(a) && Ascending(b)
    requires forall k :: k in a <==> k in b
    ensures a == b
  {
    if a == [] {
      FirstIsMember(b);
    } else {
      assert a[0] in b && b != [] && b[0] in a;
      BeforeIsStrict(a[0], b[0]);
      assert a[0] == b[0];
      forall k ensures k in a[1..] <==> k in b[1..] {
        BeforeIsStrict(a[0], a[0]);
        if k in a[1..] { assert k in b && k != b[0]; }
        if k in b[1..] { assert k in a && k != a[0]; }
      }
      AscendingIsUnique(a[1..], b[1..]);
    }
  }

  // ----- Printing ---------------------------------------------------------------------------

  function HexDigit(n: int): char
    requires 0 <= n < 16
  {
    "0123456789abcdef"[n]
  }

  /** The escape JSON.stringify writes for one character of a string. */
  function Escape(c: char): (r: string)
    ensures r != "" && r[0] != '\"'
  {
    if c == '\"' then "\\\""
    else if c == '\\' then "\\\\"
    else if c == '\n' then "\\n"
    else if c == '\r' then "\\r"
    else if c == '\t' then "\\t"
    else if c as int == 8 then "\\b"
    else if c as int == 12 then "\\f"
    else if c < ' ' then "\\u00" + [HexDigit(c as int / 16), HexDigit(c as int % 16)]
    else [c]
  }

  function EscapeAll(s: string): string {
    if s == "" then "" else Escape(s[0]) + EscapeAll(s[1..])
  }

  function Quote(s: string): string {
    "\"" + EscapeAll(s) + "\""
  }

  function Canonical(v: Json): string
    decreases v, 0
  {
    match v
    case Null => "null"
    case Bool(flag) => if flag then "true" else "false"
    case Number(text) => text
    case String(chars) => Quote(chars)
    case Array(items) => "[" + ItemsText(items) + "]"
    case Object(fields) =>
      var keys := Sort(Keys(fields));
      KeysAreFields(fields);
      "{" + EntriesText(fields, keys) + "}"
  }

  function ItemsText(items: seq<Json>): string
    decreases items, 0
  {
    if items == [] then ""
    else Canonical(items[0]) + if |items| == 1 then "" else "," + ItemsText(items[1..])
  }

  function EntriesText(fields: seq<Field>, keys: seq<string>): string
    requires forall k :: k in keys ==> Has(fields, k)
    decreases fields, |keys|
  {
    if keys == [] then ""
    else
      Quote(keys[0]) + ":" + Canonical(Get(fields, keys[0])) +
      if |keys| == 1 then "" else "," + EntriesText(fields, keys[1..])
  }

  lemma {:induction false} KeysAreFields(fields: seq<Field>)
    ensures forall k :: k in Sort(Keys(fields)) <==> Has(fields, k)
  {
    forall k ensures k in Sort(Keys(fields)) <==> Has(fields, k) {
      SameMembers(Sort(Keys(fields)), Keys(fields), k);
      HasIsMembership(fields, k);
    }
  }

  // ----- Printed text can be read back in one way only --------------------------------------

  lemma {:induction false} Regroup(u: string, v: string, w: string)
    ensures (u + v) + w == u + (v + w)
  {
  }

  lemma {:induction false} SplitAlike(u: string, v: string, x: string, y: string)
    requires u + x == v + y && |u| == |v|
    ensures u == v && x == y
  {
    assert (u + x)[..|u|] == u && (v + y)[..|v|] == v;
    assert (u + x)[|u|..] == x && (v + y)[|v|..] == y;
  }

  /** If one of two equal texts splits earlier, its remainder starts inside the other's head. */
  lemma {:induction false} ShorterHead(s: string, t: string, x: string, y: string)
    requires s + x == t + y && |s| < |t|
    ensures x != "" && x[0] == t[|s|] && x[0] in t
  {
    assert |s + x| == |t + y|;
    assert (s + x)[|s|] == x[0] && (t + y)[|s|] == t[|s|];
  }

  /** A character JSON.stringify writes as a two-character escape, or as itself. */
  predicate HasShortEscape(c: char) {
    c in "\"\\\n\r\t" || c as int == 8 || c as int == 12 || c >= ' '
  }

  lemma {:induction false} HexDigitsDiffer(m: int, n: int)
    requires 0 <= m < 16 && 0 <= n < 16 && HexDigit(m) == HexDigit(n)
    ensures m == n
  {
  }

  lemma {:induction false} ControlEscapesDiffer(c: char, d: char)
    requires !HasShortEscape(c) && !HasShortEscape(d)
    requires Escape(c)[4] == Escape(d)[4] && Escape(c)[5] == Escape(d)[5]
    ensures c == d
  {
    HexDigitsDiffer(c as int / 16, d as int / 16);
    HexDigitsDiffer(c as int % 16, d as int % 16);
  }

  lemma {:induction false} EscapesDiffer(c: char, d: char)
    requires Escape(c) <= Escape(d)
    ensures c == d
  {
    var u, v := Escape(c), Escape(d);
    assert u[0] == v[0];
    if u[0] == '\\' {
      assert u[1] == v[1];
      if !HasShortEscape(c) {
        assert u[4] == v[4] && u[5] == v[5];
        ControlEscapesDiffer(c, d);
      }
    }
  }

  lemma {:induction false} EscapeIsPrefixFree(c: char, d: char, x: string, y: string)
    requires Escape(c) + x == Escape(d) + y
    ensures c == d && x == y
  {
    var u, v := Escape(c), Escape(d);
    if |u| <= |v| {
      assert u == (u + x)[..|u|] == (v + y)[..|u|] == v[..|u|];
      EscapesDiffer(c, d);
    } else {
      assert v == (v + y)[..|v|] == (u + x)[..|v|] == u[..|v|];
      EscapesDiffer(d, c);
    }
    SplitAlike(u, v, x, y);
  }

  lemma {:induction false} QuotedTextSteps(s: string, x: string)
    ensures s == "" ==> EscapeAll(s) + "\"" + x == "\"" + x
    ensures s != "" ==> EscapeAll(s) + "\"" + x == Escape(s[0]) + (EscapeAll(s[1..]) + "\"" + x)
    ensures (EscapeAll(s) + "\"" + x)[0] == '\"' <==> s == ""
  {
    if s == "" {
      Regroup("", "\"", x);
      assert "" + ("\"" + x) == "\"" + x;
    } else {
      var head, tail := Escape(s[0]), EscapeAll(s[1..]);
      Regroup(head, tail, "\"");
      Regroup(head, tail + "\"", x);
    }
  }

  lemma {:induction false} QuotedTextIsPrefixFree(s: string, t: string, x: string, y: string)
    requires EscapeAll(s) + "\"" + x == EscapeAll(t) + "\"" + y
    ensures s == t && x == y
  {
    QuotedTextSteps(s, x);
    QuotedTextSteps(t, y);
    if s == "" {
      SplitAlike("\"", "\"", x, y);
    } else {
      EscapeIsPrefixFree(s[0], t[0], EscapeAll(s[1..]) + "\"" + x, EscapeAll(t[1..]) + "\"" + y);
      QuotedTextIsPrefixFree(s[1..], t[1..], x, y);
      assert s == [s[0]] + s[1..] && t == [t[0]] + t[1..];
    }
  }

  /** What may follow a value inside a larger text. */
  predicate Delimited(x: string) {
    x == "" || x[0] in ",]}"
  }

  lemma {:induction false} NumeralsArePrefixFree(s: Numeral, t: Numeral, x: string, y: string)
    requires Delimited(x) && Delimited(y)
    requires s + x == t + y
    ensures s == t && x == y
  {
    if |s| < |t| {
      ShorterHead(s, t, x, y);
      assert false;
    } else if |t| < |s| {
      ShorterHead(t, s, y, x);
      assert false;
    }
    SplitAlike(s, t, x, y);
  }

  /** The first character of a value tells which kind of value it is. */
  lemma {:induction false} FirstCharacter(v: Json, x: string)
    ensures Canonical(v) != ""
    ensures var c := (Canonical(v) + x)[0];
      match v
      case Null => c == 'n'
      case Bool(flag) => c == (if flag then 't' else 'f')
      case Number(_) => c in "-0123456789"
      case String(_) => c == '\"'
      case Array(_) => c == '['
      case Object(_) => c == '{'
  {
  }

  lemma {:induction false} SameKind(a: Json, b: Json, x: string, y: string)
    requires Canonical(a) + x == Canonical(b) + y
    ensures a.Null? == b.Null? && a.Bool? == b.Bool? && a.Number? == b.Number?
    ensures a.String? == b.String? && a.Array? == b.Array? && a.Object? == b.Object?
    ensures a.Bool? ==> a == b
  {
    FirstCharacter(a, x);
    FirstCharacter(b, y);
  }

  lemma {:induction false} RegroupEnclosed(open: string, inner: string, close: string, x: string)
    ensures open + inner + close + x == open + (inner + close + x)
  {
    Regroup(open, inner, close);
    Regroup(open, inner + close, x);
  }

  lemma {:induction false} ValuesArePrefixFree(a: Json, b: Json, x: string, y: string)
    requires Delimited(x) && Delimited(y)
    requires Canonical(a) + x == Canonical(b) + y
    ensures Same(a, b) && x == y
    decreases a, 0
  {
    SameKind(a, b, x, y);
    match a
    case Null => SplitAlike("null", "null", x, y);
    case Bool(_) => SplitAlike(Canonical(a), Canonical(b), x, y);
    case Number(text) => NumeralsArePrefixFree(text, b.text, x, y);
    case String(chars) =>
      RegroupEnclosed("\"", EscapeAll(chars), "\"", x);
      RegroupEnclosed("\"", EscapeAll(b.chars), "\"", y);
      SplitAlike("\"", "\"", EscapeAll(chars) + "\"" + x, EscapeAll(b.chars) + "\"" + y);
      QuotedTextIsPrefixFree(chars, b.chars, x, y);
    case Array(items) =>
      RegroupEnclosed("[", ItemsText(items), "]", x);
      RegroupEnclosed("[", ItemsText(b.items), "]", y);
      SplitAlike("[", "[", ItemsText(items) + "]" + x, ItemsText(b.items) + "]" + y);
      ItemsArePrefixFree(items, b.items, x, y);
    case Object(fields) =>
      KeysAreFields(fields);
      KeysAreFields(b.fields);
      var ks, ls := Sort(Keys(fields)), Sort(Keys(b.fields));
      RegroupEnclosed("{", EntriesText(fields, ks), "}", x);
      RegroupEnclosed("{", EntriesText(b.fields, ls), "}", y);
      SplitAlike("{", "{", EntriesText(fields, ks) + "}" + x, EntriesText(b.fields, ls) + "}" + y);
      EntriesArePrefixFree(fields, ks, b.fields, ls, x, y);
      forall k ensures Has(fields, k) <==> Has(b.fields, k) {
        assert k in ks <==> k in ls;
      }
  }

  /** What follows the first item of a list that is closed by `close`. */
  function ItemsTail(items: seq<Json>, x: string): (r: string)
    requires items != []
    ensures Delimited(r)
  {
    if |items| == 1 then "]" + x else "," + (ItemsText(items[1..]) + "]" + x)
  }

  lemma {:induction false} ItemsTailSplits(items: seq<Json>, x: string)
    requires items != []
    ensures (if |items| == 1 then "" else "," + ItemsText(items[1..])) + "]" + x == ItemsTail(items, x)
  {
    if |items| > 1 {
      Regroup(",", ItemsText(items[1..]), "]");
      Regroup(",", ItemsText(items[1..]) + "]", x);
    } else {
      assert "" + "]" + x == "]" + x;
    }
  }

  lemma {:induction false} ItemsTextSteps(items: seq<Json>, x: string)
    ensures items == [] ==> ItemsText(items) + "]" + x == "]" + x
    ensures items != [] ==> ItemsText(items) + "]" + x == Canonical(items[0]) + ItemsTail(items, x)
    ensures (ItemsText(items) + "]" + x)[0] == ']' <==> items == []
  {
    if items == [] {
      assert "" + "]" + x == "]" + x;
    } else {
      var head, rest := Canonical(items[0]), if |items| == 1 then "" else "," + ItemsText(items[1..]);
      FirstCharacter(items[0], ItemsTail(items, x));
      Regroup(head, rest, "]");
      Regroup(head, rest + "]", x);
      ItemsTailSplits(items, x);
    }
  }

  lemma {:induction false} ItemsArePrefixFree(a: seq<Json>, b: seq<Json>, x: string, y: string)
    requires ItemsText(a) + "]" + x == ItemsText(b) + "]" + y
    ensures |a| == |b| && x == y
    ensures forall i :: 0 <= i < |a| ==> Same(a[i], b[i])
    decreases a, 0
  {
    ItemsTextSteps(a, x);
    ItemsTextSteps(b, y);
    if a == [] {
      SplitAlike("]", "]", x, y);
    } else {
      ValuesArePrefixFree(a[0], b[0], ItemsTail(a, x), ItemsTail(b, y));
      assert ItemsTail(a, x)[0] == ItemsTail(b, y)[0];
      if |a| == 1 {
        SplitAlike("]", "]", x, y);
      } else {
        SplitAlike(",", ",", ItemsText(a[1..]) + "]" + x, ItemsText(b[1..]) + "]" + y);
        ItemsArePrefixFree(a[1..], b[1..], x, y);
        forall i | 0 <= i < |a| ensures Same(a[i], b[i]) {
          if i > 0 { assert Same(a[1..][i - 1], b[1..][i - 1]); }
        }
      }
    }
  }

  function EntriesTail(fields: seq<Field>, keys: seq<string>, x: string): (r: string)
    requires keys != []
    requires forall k :: k in keys ==> Has(fields, k)
    ensures Delimited(r)
  {
    if |keys| == 1 then "}" + x else "," + (EntriesText(fields, keys[1..]) + "}" + x)
  }

  lemma {:induction false} EntriesTailSplits(fields: seq<Field>, keys: seq<string>, x: string)
    requires keys != []
    requires forall k :: k in keys ==> Has(fields, k)
    ensures (if |keys| == 1 then "" else "," + EntriesText(fields, keys[1..])) + "}" + x == EntriesTail(fields, keys, x)
  {
    if |keys| > 1 {
      Regroup(",", EntriesText(fields, keys[1..]), "}");
      Regroup(",", EntriesText(fields, keys[1..]) + "}", x);
    } else {
      assert "" + "}" + x == "}" + x;
    }
  }

  lemma {:induction false} RegroupEntry(name: string, value: string, rest: string, x: string)
    ensures "\"" + name + "\"" + ":" + value + rest + "}" + x
         == "\"" + (name + "\"" + (":" + (value + (rest + "}" + x))))
  {
    var quoted := "\"" + name + "\"";
    Regroup(quoted + ":" + value, rest, "}");
    Regroup(quoted + ":" + value, rest + "}", x);
    Regroup(quoted + ":", value, rest + "}" + x);
    Regroup(quoted, ":", value + (rest + "}" + x));
    Regroup("\"", name, "\"");
    Regroup("\"", name + "\"", ":" + (value + (rest + "}" + x)));
  }

  lemma {:induction false} EntriesTextSteps(f: seq<Field>, keys: seq<string>, x: string)
    requires keys != []
    requires forall k :: k in keys ==> Has(f, k)
    ensures EntriesText(f, keys) + "}" + x
      == "\"" + (EscapeAll(keys[0]) + "\"" + (":" + (Canonical(Get(f, keys[0])) + EntriesTail(f, keys, x))))
  {
    var rest := if |keys| == 1 then "" else "," + EntriesText(f, keys[1..]);
    EntriesTailSplits(f, keys, x);
    RegroupEntry(EscapeAll(keys[0]), Canonical(Get(f, keys[0])), rest, x);
  }

  lemma {:induction false} NoEntries(f: seq<Field>, keys: seq<string>, x: string)
    requires forall k :: k in keys ==> Has(f, k)
    ensures (EntriesText(f, keys) + "}" + x)[0] == '}' <==> keys == []
    ensures keys == [] ==> EntriesText(f, keys) + "}" + x == "}" + x
  {
    if keys == [] {
      assert "" + "}" + x == "}" + x;
    } else {
      EntriesTextSteps(f, keys, x);
    }
  }

  lemma {:induction false} EntriesArePrefixFree(
      f: seq<Field>, ks: seq<string>, g: seq<Field>, ls: seq<string>, x: string, y: string)
    requires forall k :: k in ks ==> Has(f, k)
    requires forall k :: k in ls ==> Has(g, k)
    requires EntriesText(f, ks) + "}" + x == EntriesText(g, ls) + "}" + y
    ensures ks == ls && x == y
    ensures forall k :: k in ks ==> Same(Get(f, k), Get(g, k))
    decreases f, |ks|
  {
    NoEntries(f, ks, x);
    NoEntries(g, ls, y);
    if ks == [] {
      SplitAlike("}", "}", x, y);
    } else {
      FirstEntryIsPrefixFree(f, ks, g, ls, x, y);
      ValuesArePrefixFree(Get(f, ks[0]), Get(g, ls[0]), EntriesTail(f, ks, x), EntriesTail(g, ls, y));
      EntriesTailsAlike(f, ks, g, ls, x, y);
      if |ks| > 1 {
        EntriesArePrefixFree(f, ks[1..], g, ls[1..], x, y);
      }
      SameFromFirst(f, ks, g, ls);
    }
  }

  /** If the first entries are the same, and the others are, all are. */
  lemma {:induction false} SameFromFirst(f: seq<Field>, ks: seq<string>, g: seq<Field>, ls: seq<string>)
    requires ks != [] && ls != [] && ks[0] == ls[0] && ks[1..] == ls[1..]
    requires forall k :: k in ks ==> Has(f, k)
    requires forall k :: k in ls ==> Has(g, k)
    requires Same(Get(f, ks[0]), Get(g, ks[0]))
    requires forall k :: k in ks[1..] ==> Same(Get(f, k), Get(g, k))
    ensures ks == ls
    ensures forall k :: k in ks ==> Same(Get(f, k), Get(g, k))
  {
    assert ks == [ks[0]] + ks[1..] && ls == [ls[0]] + ls[1..];
    forall k | k in ks
      ensures k == ks[0] || k in ks[1..]
    {
    }
  }

  lemma {:induction false} EntriesTailsAlike(
      f: seq<Field>, ks: seq<string>, g: seq<Field>, ls: seq<string>, x: string, y: string)
    requires ks != [] && ls != []
    requires forall k :: k in ks ==> Has(f, k)
    requires forall k :: k in ls ==> Has(g, k)
    requires EntriesTail(f, ks, x) == EntriesTail(g, ls, y)
    ensures |ks| == 1 <==> |ls| == 1
    ensures |ks| == 1 ==> x == y
    ensures |ks| > 1 ==> EntriesText(f, ks[1..]) + "}" + x == EntriesText(g, ls[1..]) + "}" + y
  {
    assert EntriesTail(f, ks, x)[0] == EntriesTail(g, ls, y)[0];
    if |ks| == 1 {
      SplitAlike("}", "}", x, y);
    } else {
      SplitAlike(",", ",", EntriesText(f, ks[1..]) + "}" + x, EntriesText(g, ls[1..]) + "}" + y);
    }
  }

  lemma {:induction false} FirstEntryIsPrefixFree(
      f: seq<Field>, ks: seq<string>, g: seq<Field>, ls: seq<string>, x: string, y: string)
    requires ks != [] && ls != []
    requires forall k :: k in ks ==> Has(f, k)
    requires forall k :: k in ls ==> Has(g, k)
    requires EntriesText(f, ks) + "}" + x == EntriesText(g, ls) + "}" + y
    ensures ks[0] == ls[0]
    ensures Canonical(Get(f, ks[0])) + EntriesTail(f, ks, x) == Canonical(Get(g, ls[0])) + EntriesTail(g, ls, y)
  {
    EntriesTextSteps(f, ks, x);
    EntriesTextSteps(g, ls, y);
    var u, v := Canonical(Get(f, ks[0])) + EntriesTail(f, ks, x), Canonical(Get(g, ls[0])) + EntriesTail(g, ls, y);
    SplitAlike("\"", "\"", EscapeAll(ks[0]) + "\"" + (":" + u), EscapeAll(ls[0]) + "\"" + (":" + v));
    QuotedTextIsPrefixFree(ks[0], ls[0], ":" + u, ":" + v);
    SplitAlike(":", ":", u, v);
  }

  // ----- Values that are the same print the same text ----------------------------------------

  lemma {:induction false} SameValuesPrintAlike(a: Json, b: Json)
    requires WellFormed(a) && WellFormed(b) && Same(a, b)
    ensures Canonical(a) == Canonical(b)
    decreases a, 0
  {
    match a
    case Array(items) =>
      SameItemsPrintAlike(items, b.items);
    case Object(fields) =>
      var ks, ls := Sort(Keys(fields)), Sort(Keys(b.fields));
      KeysAreFields(fields);
      KeysAreFields(b.fields);
      SortAscending(Keys(fields));
      SortAscending(Keys(b.fields));
      AscendingIsUnique(ks, ls);
      SameEntriesPrintAlike(fields, b.fields, ks);
    case _ =>
  }

  lemma {:induction false} SameItemsPrintAlike(a: seq<Json>, b: seq<Json>)
    requires |a| == |b|
    requires forall i :: 0 <= i < |a| ==> WellFormed(a[i]) && WellFormed(b[i]) && Same(a[i], b[i])
    ensures ItemsText(a) == ItemsText(b)
    decreases a, 0
  {
    if a != [] {
      SameValuesPrintAlike(a[0], b[0]);
      SameItemsPrintAlike(a[1..], b[1..]);
    }
  }

  lemma {:induction false} SameEntriesPrintAlike(f: seq<Field>, g: seq<Field>, keys: seq<string>)
    requires forall k :: k in keys ==> Has(f, k) && Has(g, k) && Same(Get(f, k), Get(g, k))
    requires forall k :: k in keys ==> WellFormed(Get(f, k)) && WellFormed(Get(g, k))
    ensures EntriesText(f, keys) == EntriesText(g, keys)
    decreases f, |keys|
  {
    if keys != [] {
      SameValuesPrintAlike(Get(f, keys[0]), Get(g, keys[0]));
      SameEntriesPrintAlike(f, g, keys[1..]);
    }
  }

  /** The printer is injective up to key order, and insensitive to it. */
  lemma {:induction false} CanonicalTextIdentifiesValue(a: Json, b: Json)
    requires WellFormed(a) && WellFormed(b)
    ensures Canonical(a) == Canonical(b) <==> Same(a, b)
  {
    if Canonical(a) == Canonical(b) {
      ValuesArePrefixFree(a, b, "", "");
    }
    if Same(a, b) {
      SameValuesPrintAlike(a, b);
    }
  }
}
