/**
 * `JSON.parse(JSON.stringify(v, null, gap)) == v` for every value `JSON.parse`
 * can produce and every gap made of spaces: the compact form used for tags and
 * the two-space form used for display both read back as the value written.
 */
module JsonRoundTrip {
  import opened Common
  import opened Json
  import opened JsonParser
  import opened JsonPrinter

  /** What may follow a value inside JSON text: whitespace, `,`, `]`, `}` or nothing. */
  predicate Delimited(rest: string) {
    rest == [] || IsWs(rest[0]) || rest[0] == ',' || rest[0] == ']' || rest[0] == '}'
  }

  lemma HexQuadOfEscape(c: char)
    requires (c as int) < 0x20
    ensures var q := "00" + [HexDigit(c as int / 16), HexDigit(c as int % 16)];
            StartsWithHexQuad(q) && HexQuad(q) == c as int
  {
  }

  /** Reading one escaped character back yields the character. */
  lemma EscapeCharRoundTrip(c: char, x: string)
    ensures ParseStringBody(EscapeChar(c) + x) ==
            match ParseStringBody(x)
            case None => None
            case Some((t, r)) => Some(([c] + t, r))
  {
    var y := EscapeChar(c) + x;
    if c == '"' || c == '\\' || c == 0x08 as char || c == '\t' || c == '\n'
       || c == 0x0C as char || c == '\r' {
      assert y[0] == '\\' && y[1] == EscapeChar(c)[1] && y[2..] == x;
      assert ParseEscape(y[1..]) == Some((c, x));
    } else if (c as int) < 0x20 {
      var q := "00" + [HexDigit(c as int / 16), HexDigit(c as int % 16)];
      HexQuadOfEscape(c);
      assert y == "\\u" + q + x;
      assert y[1..][1..] == q + x;
      assert y[1..][5..] == x;
      assert ParseEscape(y[1..]) == Some((c, x));
    } else {
      assert y == [c] + x;
      assert y[1..] == x;
    }
  }

  /** A quoted string reads back as itself, leaving what follows the closing quote. */
  lemma {:induction false} StringBodyRoundTrip(s: string, rest: string)
    ensures ParseStringBody(QuoteBody(s) + "\"" + rest) == Some((s, rest))
  {
    if s == [] {
      assert QuoteBody(s) + "\"" + rest == "\"" + rest;
    } else {
      var x := QuoteBody(s[1..]) + "\"" + rest;
      assert QuoteBody(s) + "\"" + rest == EscapeChar(s[0]) + x;
      StringBodyRoundTrip(s[1..], rest);
      EscapeCharRoundTrip(s[0], x);
      assert [s[0]] + s[1..] == s;
    }
  }

  lemma QuoteRoundTrip(s: string, rest: string)
    ensures ParseValue(Quote(s) + rest) == Some((JString(s), rest))
  {
    var t := Quote(s) + rest;
    assert t[0] == '"';
    assert t[1..] == QuoteBody(s) + "\"" + rest;
    StringBodyRoundTrip(s, rest);
  }

  /** Serialised text starts with a character that opens a value. */
  lemma SerializeStart(v: Value, gap: string, indent: string)
    requires WellFormed(v)
    ensures var t := Serialize(v, gap, indent);
            t != [] && !IsWs(t[0]) && t[0] != ']' && t[0] != '}' && t[0] != ','
  {
  }

  lemma JoinFirst(parts: seq<string>, sep: string)
    requires |parts| >= 1
    ensures Join(parts, sep) == parts[0] + (if |parts| == 1 then "" else sep + Join(parts[1..], sep))
  {
  }

  lemma OpenIsWs(gap: string, inner: string)
    requires AllSpaces(inner)
    ensures AllWs(Open(gap, inner)) && AllWs(Close(gap, inner))
  {
  }

  // One unfolding of the parser at a time, so that the round-trip proofs below
  // never have to unfold a parsing function themselves.

  lemma ParseValueArray(s: string)
    requires s != [] && s[0] == '['
    ensures ParseValue(s) == ParseArray(SkipWs(s[1..]))
  {
    assert |s| >= 4 ==> s[..4][0] == '[';
    assert |s| >= 5 ==> s[..5][0] == '[';
  }

  lemma ParseValueObject(s: string)
    requires s != [] && s[0] == '{'
    ensures ParseValue(s) == ParseObject(SkipWs(s[1..]))
  {
    assert |s| >= 4 ==> s[..4][0] == '{';
    assert |s| >= 5 ==> s[..5][0] == '{';
  }

  lemma ParseArrayElements(s: string)
    requires s != [] && s[0] != ']'
    ensures ParseArray(s) == match ParseElements(s)
                             case None => None
                             case Some((items, rest)) => Some((JArray(items), rest))
  {
  }

  lemma ParseObjectMembers(s: string)
    requires s != [] && s[0] != '}'
    ensures ParseObject(s) == match ParseMembers(s)
                              case None => None
                              case Some((ms, rest)) => Some((JObject(ms), rest))
  {
  }

  lemma ParseElementsLast(s: string, v: Value, r1: string, after: string)
    requires ParseValue(s) == Some((v, r1)) && SkipWs(r1) == "]" + after
    ensures ParseElements(s) == Some(([v], after))
  {
    var r2 := SkipWs(r1);
    assert r2 != [] && r2[0] == ']';
    assert r2[1..] == after;
  }

  lemma ParseElementsNext(s: string, v: Value, r1: string, next: string, vs: seq<Value>, rest: string)
    requires ParseValue(s) == Some((v, r1)) && SkipWs(r1) == "," + next
    requires ParseElements(SkipWs(next)) == Some((vs, rest))
    ensures ParseElements(s) == Some(([v] + vs, rest))
  {
    var r2 := SkipWs(r1);
    assert r2 != [] && r2[0] == ',' && r2[0] != ']';
    assert r2[1..] == next;
  }

  lemma ParseMembersLast(s: string, m: Member, r1: string, after: string)
    requires ParseMember(s) == Some((m, r1)) && SkipWs(r1) == "}" + after
    ensures ParseMembers(s) == Some(([m], after))
  {
    var r2 := SkipWs(r1);
    assert r2 != [] && r2[0] == '}';
    assert r2[1..] == after;
  }

  lemma ParseMembersNext(s: string, m: Member, r1: string, next: string, ms: seq<Member>, rest: string)
    requires ParseMember(s) == Some((m, r1)) && SkipWs(r1) == "," + next
    requires ParseMembers(SkipWs(next)) == Some((ms, rest))
    ensures ParseMembers(s) == Some(([m] + ms, rest))
  {
    var r2 := SkipWs(r1);
    assert r2 != [] && r2[0] == ',' && r2[0] != '}';
    assert r2[1..] == next;
  }

  lemma NullRoundTrip(rest: string)
    ensures ParseValue("null" + rest) == Some((JNull, rest))
  {
    var s := "null" + rest;
    assert s[..4] == "null" && s[4..] == rest;
  }

  lemma TrueRoundTrip(rest: string)
    ensures ParseValue("true" + rest) == Some((JBool(true), rest))
  {
    var s := "true" + rest;
    assert s[..4] == "true" && s[4..] == rest;
  }

  lemma FalseRoundTrip(rest: string)
    ensures ParseValue("false" + rest) == Some((JBool(false), rest))
  {
    var s := "false" + rest;
    assert s[..4][1] == 'a';
    assert s[..5] == "false" && s[5..] == rest;
  }

  lemma NumberRoundTrip(lit: string, rest: string)
    requires WellFormed(JNumber(lit)) && Delimited(rest)
    ensures ParseValue(lit + rest) == Some((JNumber(lit), rest))
  {
    var s := lit + rest;
    NumberSpanAppend(lit, rest);
    assert s[..|lit|] == lit && s[|lit|..] == rest;
    assert s[0] == lit[0];
    assert |s| >= 4 ==> s[..4][0] == s[0];
    assert |s| >= 5 ==> s[..5][0] == s[0];
  }

  lemma ScalarRoundTrip(v: Value, gap: string, indent: string, rest: string)
    requires !v.JArray? && !v.JObject?
    requires WellFormed(v) && Delimited(rest)
    ensures ParseValue(Serialize(v, gap, indent) + rest) == Some((v, rest))
  {
    match v
    case JNull => NullRoundTrip(rest);
    case JBool(b) => if b { TrueRoundTrip(rest); } else { FalseRoundTrip(rest); }
    case JNumber(lit) => NumberRoundTrip(lit, rest);
    case JString(str) => QuoteRoundTrip(str, rest);
  }

  // String-shape facts, stated over plain string variables so that the proofs
  // below only rewrite with them.

  lemma OpenShape(b: char, o: string, j: string, c: string, e: char, rest: string)
    ensures var s := [b] + o + j + c + [e] + rest;
            s[0] == b && s[1..] == o + (((j + c) + [e]) + rest)
  {
  }

  lemma LastShape(a: string, c: string, e: char, rest: string)
    ensures ((a + c) + [e]) + rest == a + ((c + [e]) + rest)
    ensures (c + [e]) + rest == c + ([e] + rest)
  {
  }

  lemma NextShape(a: string, o: string, j: string, c: string, e: char, rest: string)
    ensures (((a + (("," + o) + j)) + c) + [e]) + rest == a + ("," + (o + (((j + c) + [e]) + rest)))
  {
  }

  lemma MemberShape(body: string, cs: string, vt: string, tail: string)
    ensures var s := ("\"" + body + "\"") + ":" + cs + vt + tail;
            s[0] == '"' && s[1..] == body + "\"" + (":" + cs + vt + tail)
            && (":" + cs + vt + tail)[0] == ':' && (":" + cs + vt + tail)[1..] == cs + (vt + tail)
  {
  }

  lemma ConsSlice<T>(xs: seq<T>, k: nat)
    requires k < |xs|
    ensures xs[k..] == [xs[k]] + xs[k + 1..]
  {
  }

  lemma LastSlice<T>(xs: seq<T>, k: nat)
    requires k + 1 == |xs|
    ensures xs[k..] == [xs[k]]
  {
  }

  lemma SerializeArray(v: Value, gap: string, indent: string)
    requires v.JArray? && v.items != []
    ensures Serialize(v, gap, indent)
            == ['['] + Open(gap, indent + gap)
               + Join(ItemTexts(v, gap, indent + gap), "," + Open(gap, indent + gap))
               + Close(gap, indent) + [']']
  {
  }

  lemma SerializeObject(v: Value, gap: string, indent: string)
    requires v.JObject? && v.members != []
    ensures Serialize(v, gap, indent)
            == ['{'] + Open(gap, indent + gap)
               + Join(MemberTexts(v, gap, indent + gap), "," + Open(gap, indent + gap))
               + Close(gap, indent) + ['}']
  {
  }

  lemma {:induction false} ValueRoundTrip(v: Value, gap: string, indent: string, rest: string)
    requires WellFormed(v) && AllSpaces(gap) && AllSpaces(indent) && Delimited(rest)
    ensures ParseValue(Serialize(v, gap, indent) + rest) == Some((v, rest))
    decreases v, 2
  {
    if v.JArray? {
      ArrayRoundTrip(v, gap, indent, rest);
    } else if v.JObject? {
      ObjectRoundTrip(v, gap, indent, rest);
    } else {
      ScalarRoundTrip(v, gap, indent, rest);
    }
  }

  lemma {:induction false} ArrayRoundTrip(v: Value, gap: string, indent: string, rest: string)
    requires v.JArray?
    requires WellFormed(v) && AllSpaces(gap) && AllSpaces(indent) && Delimited(rest)
    ensures ParseValue(Serialize(v, gap, indent) + rest) == Some((v, rest))
    decreases v, 1
  {
    var s := Serialize(v, gap, indent) + rest;
    if v.items == [] {
      assert s == "[]" + rest;
      ParseValueArray(s);
      assert s[1..] == "]" + rest;
    } else {
      var inner := indent + gap;
      var parts := ItemTexts(v, gap, inner);
      var o, j, c := Open(gap, inner), Join(parts, "," + Open(gap, inner)), Close(gap, indent);
      var body := ((j + c) + "]") + rest;
      SerializeArray(v, gap, indent);
      OpenShape('[', o, j, c, ']', rest);
      ParseValueArray(s);
      OpenIsWs(gap, inner);
      SkipWsAppend(o, body);
      JoinFirst(parts, "," + o);
      SerializeStart(v.items[0], gap, inner);
      assert body[0] == parts[0][0];
      SkipWsOfNonWs(body);
      ParseArrayElements(body);
      ElementsRoundTrip(v, 0, gap, indent, rest);
      assert parts[0..] == parts && v.items[0..] == v.items;
    }
  }

  lemma {:induction false} ObjectRoundTrip(v: Value, gap: string, indent: string, rest: string)
    requires v.JObject?
    requires WellFormed(v) && AllSpaces(gap) && AllSpaces(indent) && Delimited(rest)
    ensures ParseValue(Serialize(v, gap, indent) + rest) == Some((v, rest))
    decreases v, 1
  {
    var s := Serialize(v, gap, indent) + rest;
    if v.members == [] {
      assert s == "{}" + rest;
      ParseValueObject(s);
      assert s[1..] == "}" + rest;
    } else {
      var inner := indent + gap;
      var parts := MemberTexts(v, gap, inner);
      var o, j, c := Open(gap, inner), Join(parts, "," + Open(gap, inner)), Close(gap, indent);
      var body := ((j + c) + "}") + rest;
      SerializeObject(v, gap, indent);
      OpenShape('{', o, j, c, '}', rest);
      ParseValueObject(s);
      OpenIsWs(gap, inner);
      SkipWsAppend(o, body);
      JoinFirst(parts, "," + o);
      assert body[0] == parts[0][0] == '"';
      SkipWsOfNonWs(body);
      ParseObjectMembers(body);
      MembersRoundTrip(v, 0, gap, indent, rest);
      assert parts[0..] == parts && v.members[0..] == v.members;
    }
  }

  /** From element `k` on, the element list of an array reads back. */
  lemma {:induction false} ElementsRoundTrip(v: Value, k: nat, gap: string, indent: string, rest: string)
    requires v.JArray? && k < |v.items|
    requires WellFormed(v) && AllSpaces(gap) && AllSpaces(indent) && Delimited(rest)
    ensures var inner := indent + gap;
            ParseElements(((Join(ItemTexts(v, gap, inner)[k..], "," + Open(gap, inner))
                          + Close(gap, indent)) + "]") + rest)
            == Some((v.items[k..], rest))
    decreases v, 0, |v.items| - k, 1
  {
    if k + 1 == |v.items| {
      LastElementRoundTrip(v, k, gap, indent, rest);
    } else {
      NextElementRoundTrip(v, k, gap, indent, rest);
    }
  }

  lemma {:induction false} LastElementRoundTrip(v: Value, k: nat, gap: string, indent: string, rest: string)
    requires v.JArray? && k + 1 == |v.items|
    requires WellFormed(v) && AllSpaces(gap) && AllSpaces(indent) && Delimited(rest)
    ensures var inner := indent + gap;
            ParseElements(((Join(ItemTexts(v, gap, inner)[k..], "," + Open(gap, inner))
                          + Close(gap, indent)) + "]") + rest)
            == Some((v.items[k..], rest))
    decreases v, 0, |v.items| - k, 0
  {
    var inner := indent + gap;
    var parts := ItemTexts(v, gap, inner);
    var o := Open(gap, inner);
    var c := Close(gap, indent);
    var input := ((Join(parts[k..], "," + o) + c) + "]") + rest;
    OpenIsWs(gap, inner);
    OpenIsWs(gap, indent);
    JoinFirst(parts[k..], "," + o);
    assert parts[k..][0] == parts[k] == Serialize(v.items[k], gap, inner);
    var tail := (c + "]") + rest;
    LastShape(parts[k], c, ']', rest);
    assert input == parts[k] + tail;
    ValueRoundTrip(v.items[k], gap, inner, tail);
    SkipWsAppend(c, "]" + rest);
    ParseElementsLast(input, v.items[k], tail, rest);
    LastSlice(v.items, k);
  }

  lemma {:induction false} NextElementRoundTrip(v: Value, k: nat, gap: string, indent: string, rest: string)
    requires v.JArray? && k + 1 < |v.items|
    requires WellFormed(v) && AllSpaces(gap) && AllSpaces(indent) && Delimited(rest)
    ensures var inner := indent + gap;
            ParseElements(((Join(ItemTexts(v, gap, inner)[k..], "," + Open(gap, inner))
                          + Close(gap, indent)) + "]") + rest)
            == Some((v.items[k..], rest))
    decreases v, 0, |v.items| - k, 0
  {
    var inner := indent + gap;
    var parts := ItemTexts(v, gap, inner);
    var o := Open(gap, inner);
    var c := Close(gap, indent);
    var input := ((Join(parts[k..], "," + o) + c) + "]") + rest;
    OpenIsWs(gap, inner);
    OpenIsWs(gap, indent);
    JoinFirst(parts[k..], "," + o);
    assert parts[k..][0] == parts[k] == Serialize(v.items[k], gap, inner);
    var j' := Join(parts[k + 1..], "," + o);
    var more := ((j' + c) + "]") + rest;
    assert parts[k..][1..] == parts[k + 1..];
    NextShape(parts[k], o, j', c, ']', rest);
    assert input == parts[k] + ("," + (o + more));
    ValueRoundTrip(v.items[k], gap, inner, "," + (o + more));
    SkipWsOfNonWs("," + (o + more));
    SkipWsAppend(o, more);
    JoinFirst(parts[k + 1..], "," + o);
    assert parts[k + 1..][0] == parts[k + 1] == Serialize(v.items[k + 1], gap, inner);
    SerializeStart(v.items[k + 1], gap, inner);
    assert more[0] == parts[k + 1][0];
    SkipWsOfNonWs(more);
    ElementsRoundTrip(v, k + 1, gap, indent, rest);
    ParseElementsNext(input, v.items[k], "," + (o + more), o + more, v.items[k + 1..], rest);
    ConsSlice(v.items, k);
  }

  /** One `"key": value` member reads back. */
  lemma MemberRoundTrip(v: Value, k: nat, gap: string, inner: string, tail: string)
    requires v.JObject? && k < |v.members|
    requires WellFormed(v) && AllSpaces(gap) && AllSpaces(inner) && Delimited(tail)
    ensures ParseMember(MemberTexts(v, gap, inner)[k] + tail) == Some((v.members[k], tail))
    decreases v, 0, 0, 0
  {
    var m := v.members[k];
    var valueText := Serialize(m.value, gap, inner);
    var cs := ColonSpace(gap);
    var afterKey := ":" + cs + valueText + tail;
    var s := MemberTexts(v, gap, inner)[k] + tail;
    assert MemberTexts(v, gap, inner)[k] == Quote(m.key) + ":" + cs + valueText;
    MemberShape(QuoteBody(m.key), cs, valueText, tail);
    StringBodyRoundTrip(m.key, afterKey);
    SkipWsOfNonWs(afterKey);
    SkipWsAppend(cs, valueText + tail);
    assert WellFormed(m.value);
    SerializeStart(m.value, gap, inner);
    SkipWsOfNonWs(valueText + tail);
    ValueRoundTrip(m.value, gap, inner, tail);
  }

  /** From member `k` on, the member list of an object reads back. */
  lemma {:induction false} MembersRoundTrip(v: Value, k: nat, gap: string, indent: string, rest: string)
    requires v.JObject? && k < |v.members|
    requires WellFormed(v) && AllSpaces(gap) && AllSpaces(indent) && Delimited(rest)
    ensures var inner := indent + gap;
            ParseMembers(((Join(MemberTexts(v, gap, inner)[k..], "," + Open(gap, inner))
                         + Close(gap, indent)) + "}") + rest)
            == Some((v.members[k..], rest))
    decreases v, 0, |v.members| - k, 1
  {
    if k + 1 == |v.members| {
      LastMemberRoundTrip(v, k, gap, indent, rest);
    } else {
      NextMemberRoundTrip(v, k, gap, indent, rest);
    }
  }

  lemma {:induction false} LastMemberRoundTrip(v: Value, k: nat, gap: string, indent: string, rest: string)
    requires v.JObject? && k + 1 == |v.members|
    requires WellFormed(v) && AllSpaces(gap) && AllSpaces(indent) && Delimited(rest)
    ensures var inner := indent + gap;
            ParseMembers(((Join(MemberTexts(v, gap, inner)[k..], "," + Open(gap, inner))
                         + Close(gap, indent)) + "}") + rest)
            == Some((v.members[k..], rest))
    decreases v, 0, |v.members| - k, 0
  {
    var inner := indent + gap;
    var parts := MemberTexts(v, gap, inner);
    var o := Open(gap, inner);
    var c := Close(gap, indent);
    var input := ((Join(parts[k..], "," + o) + c) + "}") + rest;
    OpenIsWs(gap, inner);
    OpenIsWs(gap, indent);
    JoinFirst(parts[k..], "," + o);
    assert parts[k..][0] == parts[k];
    var tail := (c + "}") + rest;
    LastShape(parts[k], c, '}', rest);
    assert input == parts[k] + tail;
    MemberRoundTrip(v, k, gap, inner, tail);
    SkipWsAppend(c, "}" + rest);
    ParseMembersLast(input, v.members[k], tail, rest);
    LastSlice(v.members, k);
  }

  lemma {:induction false} NextMemberRoundTrip(v: Value, k: nat, gap: string, indent: string, rest: string)
    requires v.JObject? && k + 1 < |v.members|
    requires WellFormed(v) && AllSpaces(gap) && AllSpaces(indent) && Delimited(rest)
    ensures var inner := indent + gap;
            ParseMembers(((Join(MemberTexts(v, gap, inner)[k..], "," + Open(gap, inner))
                         + Close(gap, indent)) + "}") + rest)
            == Some((v.members[k..], rest))
    decreases v, 0, |v.members| - k, 0
  {
    var inner := indent + gap;
    var parts := MemberTexts(v, gap, inner);
    var o := Open(gap, inner);
    var c := Close(gap, indent);
    var input := ((Join(parts[k..], "," + o) + c) + "}") + rest;
    OpenIsWs(gap, inner);
    OpenIsWs(gap, indent);
    JoinFirst(parts[k..], "," + o);
    assert parts[k..][0] == parts[k];
    var j' := Join(parts[k + 1..], "," + o);
    var more := ((j' + c) + "}") + rest;
    assert parts[k..][1..] == parts[k + 1..];
    NextShape(parts[k], o, j', c, '}', rest);
    assert input == parts[k] + ("," + (o + more));
    MemberRoundTrip(v, k, gap, inner, "," + (o + more));
    SkipWsOfNonWs("," + (o + more));
    SkipWsAppend(o, more);
    JoinFirst(parts[k + 1..], "," + o);
    assert parts[k + 1..][0] == parts[k + 1];
    assert more[0] == parts[k + 1][0] == '"';
    SkipWsOfNonWs(more);
    MembersRoundTrip(v, k + 1, gap, indent, rest);
    ParseMembersNext(input, v.members[k], "," + (o + more), o + more, v.members[k + 1..], rest);
    ConsSlice(v.members, k);
  }

  /** `JSON.parse(JSON.stringify(v, null, gap))` gives `v` back. */
  lemma SerializeRoundTrip(v: Value, gap: string)
    requires WellFormed(v) && AllSpaces(gap)
    ensures Parse(Serialize(v, gap, "")) == Some(v)
  {
    var t := Serialize(v, gap, "");
    SerializeStart(v, gap, "");
    SkipWsOfNonWs(t);
    ValueRoundTrip(v, gap, "", []);
    assert t + [] == t;
  }

  /** The compact text of a string array reads back as that array. */
  lemma StringArrayRoundTrip(ts: seq<string>)
    ensures Parse(Stringify(StringArray(ts))) == Some(StringArray(ts))
  {
    StringArrayWellFormed(ts);
    SerializeRoundTrip(StringArray(ts), "");
  }

  /** Pretty-printed text reads back as the value printed. */
  lemma PrettyPrintRoundTrip(v: Value)
    requires WellFormed(v)
    ensures Parse(PrettyPrint(v)) == Some(v)
  {
    SerializeRoundTrip(v, "  ");
  }
}
