/** The table column specs derived from a company's first order record:
    a readable label, a width from the fixed width table, and alignment. */
module Columns {
  import opened Wrappers
  import opened Text

  datatype Align = Left | Center

  /** One header spec handed to the table renderer. */
  datatype Column = Column(
    heading: string,
    property: string,
    valign: Align,
    align: Align,
    headerColor: string,
    width: int)

  /** The fallback width for a field the width table does not list. */
  const DefaultWidth: int := 100

  /** The fixed width table, in points. */
  const ColumnWidths: map<string, int> := map[
    "ServiceOrderNo" := 150,
    "Command" := 228,
    "CommandTotalCount" := 163,
    "ServiceType" := 105,
    "Department" := 100,
    "Business" := 75,
    "Product" := 135,
    "Borrower" := 145,
    "Status" := 95,
    "Responsible" := 94,
    "created" := 107,
    "ServiceDate" := 97,
    "UrgentOrder" := 97,
    "Remark" := 95]

  // ---------------------------------------------------------------- labels

  /** No lowercase letter is directly followed by an uppercase one. */
  predicate NoCamelPair(s: string) {
    forall i :: 0 <= i < |s| - 1 ==> !(IsLower(s[i]) && IsUpper(s[i + 1]))
  }

  predicate NoUnderscore(s: string) {
    forall i :: 0 <= i < |s| ==> s[i] != '_'
  }

  /** `s.replace(/([a-z])([A-Z])/g, "$1 $2")`: a left-to-right scan that, on
      a lowercase-uppercase match, writes both letters with a space between
      and resumes after the match. */
  function SplitCamel(s: string): (r: string)
    ensures NoCamelPair(r)
    ensures |s| > 0 ==> |r| > 0 && r[0] == s[0]
    ensures NoUnderscore(s) ==> NoUnderscore(r)
  {
    if |s| < 2 then s
    else if IsLower(s[0]) && IsUpper(s[1]) then [s[0], ' ', s[1]] + SplitCamel(s[2..])
    else [s[0]] + SplitCamel(s[1..])
  }

  /** Reference reading of the same rewrite: after every character, a space
      when it is lowercase and the next one is uppercase. */
  function InsertSpaces(s: string): string {
    if |s| == 0 then ""
    else [s[0]] + (if |s| > 1 && IsLower(s[0]) && IsUpper(s[1]) then " " else "") + InsertSpaces(s[1..])
  }

  /** `s.replace(/_/g, " ")`. */
  function UnderscoresToSpaces(s: string): (r: string)
    ensures |r| == |s| && NoUnderscore(r)
    ensures forall i :: 0 <= i < |s| ==> r[i] == (if s[i] == '_' then ' ' else s[i])
  {
    seq(|s|, i requires 0 <= i < |s| => if s[i] == '_' then ' ' else s[i])
  }

  /** The displayed header label of a field name. */
  function Label(key: string): (r: string)
    ensures NoUnderscore(r) && NoCamelPair(r)
  {
    var r := UnderscoresToSpaces(SplitCamel(key));
    SpacesKeepNoCamelPair(SplitCamel(key));
    r
  }

  /** Turning underscores into spaces cannot create a lowercase-uppercase pair. */
  lemma SpacesKeepNoCamelPair(s: string)
    requires NoCamelPair(s)
    ensures NoCamelPair(UnderscoresToSpaces(s))
  {
  }

  /** The regex scan inserts a space exactly between each adjacent
      lowercase-uppercase pair. */
  lemma {:induction false} SplitCamelInsertsSpaces(s: string)
    ensures SplitCamel(s) == InsertSpaces(s)
    decreases |s|
  {
    if |s| >= 2 {
      if IsLower(s[0]) && IsUpper(s[1]) {
        SplitCamelInsertsSpaces(s[2..]);
        assert s[1..][1..] == s[2..];
      } else {
        SplitCamelInsertsSpaces(s[1..]);
      }
    }
  }

  /** A label is already a label: applying the transform again changes nothing. */
  lemma LabelIdempotent(key: string)
    ensures Label(Label(key)) == Label(key)
  {
    var l := Label(key);
    SplitCamelFixes(l);
    UnderscoresFix(l);
  }

  lemma {:induction false} SplitCamelFixes(s: string)
    requires NoCamelPair(s)
    ensures SplitCamel(s) == s
    decreases |s|
  {
    if |s| >= 2 {
      assert !(IsLower(s[0]) && IsUpper(s[1]));
      SplitCamelFixes(s[1..]);
    }
  }

  lemma UnderscoresFix(s: string)
    requires NoUnderscore(s)
    ensures UnderscoresToSpaces(s) == s
  {
  }

  /** The characters of `s` other than spaces and underscores, in order. */
  function Squeeze(s: string): (r: string)
    ensures forall i :: 0 <= i < |r| ==> r[i] != ' ' && r[i] != '_'
  {
    if |s| == 0 then ""
    else (if s[0] == ' ' || s[0] == '_' then "" else [s[0]]) + Squeeze(s[1..])
  }

  lemma {:induction false} SqueezeAppend(a: string, b: string)
    ensures Squeeze(a + b) == Squeeze(a) + Squeeze(b)
    decreases |a|
  {
    if |a| > 0 {
      SqueezeAppend(a[1..], b);
      assert (a + b)[1..] == a[1..] + b;
    } else {
      assert a + b == b;
    }
  }

  /** Without its spaces and underscores, a label spells the field name
      without its spaces and underscores: the transform only adds or
      rewrites separators, it never drops, adds or reorders anything else. */
  lemma {:induction false} LabelKeepsLetters(key: string)
    ensures Squeeze(Label(key)) == Squeeze(key)
  {
    SqueezeSplitCamel(key);
    SqueezeUnderscores(SplitCamel(key));
  }

  lemma SqueezeSplitCamel(s: string)
    ensures Squeeze(SplitCamel(s)) == Squeeze(s)
  {
    SplitCamelInsertsSpaces(s);
    SqueezeInsertSpaces(s);
  }

  lemma {:induction false} SqueezeInsertSpaces(s: string)
    ensures Squeeze(InsertSpaces(s)) == Squeeze(s)
    decreases |s|
  {
    if |s| > 0 {
      var gap: string := if |s| > 1 && IsLower(s[0]) && IsUpper(s[1]) then " " else "";
      var head := [s[0]] + gap;
      assert InsertSpaces(s) == head + InsertSpaces(s[1..]);
      SqueezeInsertSpaces(s[1..]);
      SqueezeAppend(head, InsertSpaces(s[1..]));
      SqueezeAppend([s[0]], gap);
      assert Squeeze(gap) == [] by {
        if gap == " " { assert gap[1..] == ""; }
      }
      assert [s[0]][1..] == "";
    }
  }

  lemma {:induction false} SqueezeUnderscores(s: string)
    ensures Squeeze(UnderscoresToSpaces(s)) == Squeeze(s)
    decreases |s|
  {
    if |s| > 0 {
      SqueezeUnderscores(s[1..]);
      assert UnderscoresToSpaces(s)[1..] == UnderscoresToSpaces(s[1..]);
    }
  }

  // -------------------------------------------------- width and alignment

  /** `m[key]`: `undefined` for a key the object does not hold. */
  function Lookup(m: map<string, int>, key: string): (v: Option<int>)
    ensures v.Some? <==> key in m
    ensures v.Some? ==> v.value == m[key]
  {
    if key in m then Some(m[key]) else None
  }

  /** JavaScript `v || fallback` for a number-or-undefined: `undefined` and
      `0` are falsy. */
  function OrElse(v: Option<int>, fallback: int): (r: int)
    // the value when it is truthy, the fallback otherwise
    ensures r == fallback || v == Some(r)
    ensures v.Some? && v.value != 0 ==> r == v.value
    ensures fallback != 0 ==> r != 0
  {
    if v.None? || v.value == 0 then fallback else v.value
  }

  /** `columnWidths[key] || 100`. */
  function Width(key: string): (w: int)
    ensures w > 0
    ensures key in ColumnWidths ==> w == ColumnWidths[key]
    ensures key !in ColumnWidths ==> w == DefaultWidth
  {
    OrElse(Lookup(ColumnWidths, key), DefaultWidth)
  }

  /** Left for the order number and command columns, centred otherwise. */
  function HorizontalAlign(key: string): (a: Align)
    ensures a == Left <==> key in {"ServiceOrderNo", "Command"}
  {
    if key == "ServiceOrderNo" || key == "Command" then Left else Center
  }

  /** The header spec of one field. */
  function ColumnFor(key: string): (c: Column)
    ensures c.property == key && c.heading == Label(key)
    ensures c.width == Width(key) && c.width > 0
    ensures c.valign == Center && c.headerColor == "white"
    ensures c.align == Left <==> key == "ServiceOrderNo" || key == "Command"
  {
    Column(
      heading := Label(key),
      property := key,
      valign := Center,
      align := HorizontalAlign(key),
      headerColor := "white",
      width := Width(key))
  }

  /** `Object.keys(first).map(...)`: one column per key, in key order. */
  function HeaderSpecs(keys: seq<string>): (cs: seq<Column>)
    ensures |cs| == |keys|
    ensures forall i :: 0 <= i < |keys| ==> cs[i] == ColumnFor(keys[i])
  {
    seq(|keys|, i requires 0 <= i < |keys| => ColumnFor(keys[i]))
  }
}
