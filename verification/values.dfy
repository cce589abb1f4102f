/** The values an Odoo XML-RPC read hands back, with the bits of Python
    semantics the report builder depends on: truthiness, `dict.get`,
    `str()` as used inside f-strings, and many2one label extraction. */
module Values {
  import Text

  /** A Python value as decoded from XML-RPC. A many2one field arrives as
      the two-element list `[id, display_name]`, an unset field as `False`. */
  datatype Value = Null | Bool(b: bool) | Int(i: int) | Str(s: string) | List(items: seq<Value>)

  /** A fetched record: field name to value, like the dicts `search_read` returns. */
  type Record = map<string, Value>

  /** Python truthiness. */
  predicate Truthy(v: Value) {
    match v
    case Null => false
    case Bool(b) => b
    case Int(i) => i != 0
    case Str(s) => s != ""
    case List(items) => items != []
  }

  /** `r.get(key)`. */
  function Get(r: Record, key: string): Value {
    GetOr(r, key, Null)
  }

  /** `r.get(key, default)`. */
  function GetOr(r: Record, key: string, default: Value): (v: Value)
    ensures key in r ==> v == r[key]
    ensures key !in r ==> v == default
  {
    if key in r then r[key] else default
  }

  // ---------------------------------------------------------------------
  // Decimal digits of integers
  // ---------------------------------------------------------------------

  function DigitChar(d: nat): char
    requires d < 10
  {
    "0123456789"[d]
  }

  function DigitValue(c: char): nat {
    if '0' <= c <= '9' then (c - '0') as nat else 0
  }

  /** Decimal digits only, with no leading zero unless the number is 0: the
      only spelling Python's `str()` produces for a natural number. */
  predicate Canonical(s: string) {
    |s| >= 1 && (forall i :: 0 <= i < |s| ==> '0' <= s[i] <= '9') && (s[0] == '0' ==> s == "0")
  }

  /** Decimal spelling of a natural number, most significant digit first. */
  function NatToString(n: nat): (r: string)
    ensures Canonical(r)
    ensures r[0] == '0' <==> n == 0
    decreases n
  {
    if n < 10 then
      DigitRoundTrip(n);
      [DigitChar(n)]
    else
      var r := NatToString(n / 10) + [DigitChar(n % 10)];
      assert r[0] == NatToString(n / 10)[0];
      r
  }

  /** Reads a string of decimal digits back as a number. */
  function ParseNat(s: string): nat
    decreases |s|
  {
    if |s| == 0 then 0 else ParseNat(s[..|s| - 1]) * 10 + DigitValue(s[|s| - 1])
  }

  /** The decimal spelling loses nothing: reading it back gives the number. */
  lemma {:induction false} NatToStringRoundTrip(n: nat)
    ensures ParseNat(NatToString(n)) == n
    decreases n
  {
    var s := NatToString(n);
    if n >= 10 {
      NatToStringRoundTrip(n / 10);
      assert s[..|s| - 1] == NatToString(n / 10);
      DigitRoundTrip(n % 10);
      assert s[|s| - 1] == DigitChar(n % 10);
      assert ParseNat(s) == ParseNat(NatToString(n / 10)) * 10 + DigitValue(DigitChar(n % 10));
      assert (n / 10) * 10 + n % 10 == n;
    } else {
      DigitRoundTrip(n);
      assert s[..0] == [];
    }
  }

  /** A digit reads back as itself. */
  lemma DigitRoundTrip(d: nat)
    requires d < 10
    ensures DigitValue(DigitChar(d)) == d
  {
    assert "0123456789"[d] == '0' + d as char by {
      if d == 0 {} else if d == 1 {} else if d == 2 {} else if d == 3 {} else if d == 4 {}
      else if d == 5 {} else if d == 6 {} else if d == 7 {} else if d == 8 {} else {}
    }
  }

  /** A digit character is the spelling of its value. */
  lemma CharRoundTrip(c: char)
    requires '0' <= c <= '9'
    ensures DigitValue(c) < 10 && DigitChar(DigitValue(c)) == c
  {
    DigitRoundTrip(DigitValue(c));
    assert DigitChar(DigitValue(c)) == '0' + DigitValue(c) as char;
  }

  /** The decimal spelling is the only canonical one: any canonical digit
      string is the spelling of the number it denotes. */
  lemma {:induction false} CanonicalUnique(s: string)
    requires Canonical(s)
    ensures NatToString(ParseNat(s)) == s
    decreases |s|
  {
    var last := s[|s| - 1];
    var p := s[..|s| - 1];
    if |s| == 1 {
      CharRoundTrip(last);
      assert p == [];
      assert [last] == s;
    } else {
      assert p[0] == s[0] != '0';
      CanonicalUnique(p);
      AppendDigit(p, last);
      SplitLast(s);
    }
  }

  /** A non-empty text is its front followed by its last character. */
  lemma SplitLast(s: string)
    requires |s| > 0
    ensures s[..|s| - 1] + [s[|s| - 1]] == s
  {
  }

  /** A canonical spelling followed by one more digit is again the spelling
      of the number it denotes. */
  lemma AppendDigit(p: string, c: char)
    requires Canonical(p) && p[0] != '0' && NatToString(ParseNat(p)) == p
    requires '0' <= c <= '9'
    ensures NatToString(ParseNat(p + [c])) == p + [c]
  {
    CharRoundTrip(c);
    var q := p + [c];
    assert q[..|q| - 1] == p && q[|q| - 1] == c;
    assert ParseNat(p) != 0;
    SpellStep(ParseNat(p), DigitValue(c));
  }

  /** Ten times a non-zero number plus a digit is spelled as the number
      followed by the digit. */
  lemma SpellStep(m: nat, d: nat)
    requires m != 0 && d < 10
    ensures NatToString(m * 10 + d) == NatToString(m) + [DigitChar(d)]
  {
    DecimalStep(m, d);
    NatToStringStep(m * 10 + d);
  }

  /** Appending a digit `d` to a non-zero number `m`. */
  lemma DecimalStep(m: nat, d: nat)
    requires m != 0 && d < 10
    ensures m * 10 + d >= 10 && (m * 10 + d) / 10 == m && (m * 10 + d) % 10 == d
  {
  }

  /** A number of two or more digits is spelled as its tenth followed by
      its last digit. */
  lemma NatToStringStep(n: nat)
    requires n >= 10
    ensures NatToString(n) == NatToString(n / 10) + [DigitChar(n % 10)]
  {
  }

  /** `str(i)` for a Python int. */
  function IntToString(i: int): (r: string)
    ensures i >= 0 ==> Canonical(r) && ParseNat(r) == i
    ensures i < 0 ==> |r| >= 2 && r[0] == '-' && Canonical(r[1..]) && r[1] != '0' && ParseNat(r[1..]) == -i
  {
    if i < 0 then
      var n: nat := -i;
      var t := NatToString(n);
      NatToStringRoundTrip(n);
      assert Canonical(t) && ParseNat(t) == n && t[0] != '0';
      var r := ['-'] + t;
      assert |r| >= 2 && r[0] == '-';
      assert r[1..] == t;
      r
    else
      NatToStringRoundTrip(i);
      NatToString(i)
  }

  // ---------------------------------------------------------------------
  // str() and repr()
  // ---------------------------------------------------------------------

  /** `str()` of the values whose `str` and `repr` agree. */
  function ScalarText(v: Value): (r: string)
    requires !v.Str? && !v.List?
  {
    match v
    case Null => "None"
    case Bool(b) => if b then "True" else "False"
    case Int(i) => IntToString(i)
  }

  /** `repr()`, as Python prints a value inside a list. */
  function Repr(v: Value): (r: string)
    ensures |r| >= 1
    decreases v
  {
    match v
    case Str(s) => "'" + s + "'"
    case List(items) =>
      "[" + Text.Join(", ", seq(|items|, i requires 0 <= i < |items| => Repr(items[i]))) + "]"
    case _ => ScalarText(v)
  }

  /** `str()`, which is what an f-string placeholder `{v}` prints. */
  function Format(v: Value): (r: string)
    ensures r == "" <==> v == Str("")
    ensures v.Str? ==> r == v.s
  {
    match v
    case Str(s) => s
    case List(_) => Repr(v)
    case _ => ScalarText(v)
  }

  /** `v or ""` rendered with `str()`: the empty string for every falsy
      value, the value's text otherwise. */
  function Display(v: Value): (r: string)
    ensures r == "" <==> !Truthy(v)
    ensures Truthy(v) ==> r == Format(v)
  {
    if Truthy(v) then Format(v) else ""
  }

  // ---------------------------------------------------------------------
  // many2one values
  // ---------------------------------------------------------------------

  /** The shape `[id, display_name, ...]` the program accepts as a relation. */
  predicate IsRelation(v: Value) {
    v.List? && |v.items| > 1
  }

  /** `get_field_name`: the display name of a many2one value, or `""` for
      anything that is not a list of at least two elements. */
  function FieldName(v: Value): (r: Value)
    ensures IsRelation(v) ==> r == v.items[1]
    ensures !IsRelation(v) ==> r == Str("") && !Truthy(r)
  {
    if v.List? && |v.items| > 1 then v.items[1] else Str("")
  }

  /** `get_field_name` tolerates every shape the field may take: None,
      False, scalars, the empty list and a one-element list all give `""`. */
  lemma FieldNameTolerates(x: Value, id: int, name: string)
    ensures FieldName(Null) == Str("") && FieldName(Bool(false)) == Str("")
    ensures FieldName(Int(id)) == Str("") && FieldName(Str(name)) == Str("")
    ensures FieldName(List([])) == Str("") && FieldName(List([x])) == Str("")
    ensures FieldName(List([Int(id), Str(name)])) == Str(name)
  {
  }
}
