/**
 * JSON as the proof factory prints it (RFC 8259): escaped strings, integers, and objects without
 * white space, with a reader for each that recovers what was printed.
 */
module Json {
  import opened Prelude
  import Text
  import Utf8

  // ---------- Strings ----------

  function Escape(c: char): (s: string)
    ensures |s| > 0
  {
    if c == '"' then "\\\""
    else if c == '\\' then "\\\\"
    else if c as int == 8 then "\\b"
    else if c as int == 12 then "\\f"
    else if c == '\n' then "\\n"
    else if c == '\r' then "\\r"
    else if c == '\t' then "\\t"
    else if c as int < 0x20 then "\\u00" + [Text.HexDigit(c as int / 16), Text.HexDigit(c as int % 16)]
    else [c]
  }

  function EscapeAll(s: string): string {
    if s == [] then [] else Escape(s[0]) + EscapeAll(s[1..])
  }

  function JsonString(s: string): string {
    "\"" + EscapeAll(s) + "\""
  }

  lemma {:induction false} EscapeAppend(s: string, c: char)
    ensures EscapeAll(s + [c]) == EscapeAll(s) + Escape(c)
  {
    hide Escape;
    if s == [] {
      assert ([] + [c])[1..] == [];
    } else {
      EscapeAppend(s[1..], c);
      assert (s + [c])[1..] == s[1..] + [c];
    }
  }

  /** One turn of the writing loop. */
  method WriteChar(c: char) returns (e: string)
    ensures e == Escape(c)
  {
    if c == '"' {
      e := "\\\"";
    } else if c == '\\' {
      e := "\\\\";
    } else if c as int == 8 {
      e := "\\b";
    } else if c as int == 12 {
      e := "\\f";
    } else if c == '\n' {
      e := "\\n";
    } else if c == '\r' {
      e := "\\r";
    } else if c == '\t' {
      e := "\\t";
    } else if c as int < 0x20 {
      e := "\\u00" + [Text.HexDigit(c as int / 16), Text.HexDigit(c as int % 16)];
    } else {
      e := [c];
    }
  }

  /** What the builder holds once the first `i` characters are written. */
  function Written(value: string, i: nat): string
    requires i <= |value|
  {
    "\"" + EscapeAll(value[..i])
  }

  lemma WrittenNext(value: string, i: nat)
    requires i < |value|
    ensures Written(value, i + 1) == Written(value, i) + Escape(value[i])
  {
    EscapeAppend(value[..i], value[i]);
    assert value[..i + 1] == value[..i] + [value[i]];
  }

  lemma WrittenEnds(value: string)
    ensures Written(value, 0) == "\""
    ensures JsonString(value) == Written(value, |value|) + "\""
  {
    assert value[..|value|] == value;
  }

  method WriteJsonString(value: string) returns (r: string)
    ensures r == JsonString(value)
  {
    WrittenEnds(value);
    r := "\"";
    for i := 0 to |value|
      invariant r == Written(value, i)
    {
      WrittenNext(value, i);
      var e := WriteChar(value[i]);
      r := r + e;
    }
    r := r + "\"";
  }

  /** The character of a two-character escape. */
  function Unescaped(c: char): Option<char> {
    if c == '"' || c == '\\' || c == '/' then Some(c)
    else if c == 'b' then Some(8 as char)
    else if c == 'f' then Some(12 as char)
    else if c == 'n' then Some('\n')
    else if c == 'r' then Some('\r')
    else if c == 't' then Some('\t')
    else None
  }

  function HexQuad(s: string): int
    requires |s| >= 4
  {
    if Text.HexValue(s[0]) < 0 || Text.HexValue(s[1]) < 0 || Text.HexValue(s[2]) < 0 || Text.HexValue(s[3]) < 0 then -1
    else ((Text.HexValue(s[0]) * 16 + Text.HexValue(s[1])) * 16 + Text.HexValue(s[2])) * 16 + Text.HexValue(s[3])
  }

  /** One character of a string body (RFC 8259, section 7) and what follows it. */
  function ReadChar(s: string): (r: Option<(char, string)>)
    ensures r.Some? ==> |r.value.1| < |s|
  {
    if s == [] || s[0] == '"' || s[0] as int < 0x20 then None
    else if s[0] != '\\' then Some((s[0], s[1..]))
    else if |s| >= 2 && Unescaped(s[1]).Some? then Some((Unescaped(s[1]).value, s[2..]))
    else if |s| >= 6 && s[1] == 'u' && 0 <= HexQuad(s[2..]) && Utf8.Scalar(HexQuad(s[2..])) then
      Some((HexQuad(s[2..]) as char, s[6..]))
    else None
  }

  /** A string body up to its closing quote, and what follows the quote. */
  function ReadBody(s: string): (r: Option<(string, string)>)
    ensures r.Some? ==> |r.value.1| < |s|
    decreases |s|
  {
    if s != [] && s[0] == '"' then Some(([], s[1..]))
    else
      var first := ReadChar(s);
      if first.None? then None
      else
        var rest := ReadBody(first.value.1);
        if rest.None? then None else Some(([first.value.0] + rest.value.0, rest.value.1))
  }

  function ReadString(s: string): (r: Option<(string, string)>)
    ensures r.Some? ==> |r.value.1| < |s|
  {
    if s != [] && s[0] == '"' then ReadBody(s[1..]) else None
  }

  lemma ReadEscaped(c: char, rest: string)
    ensures (Escape(c) + rest)[0] != '"'
    ensures ReadChar(Escape(c) + rest) == Some((c, rest))
  {
    var s := Escape(c) + rest;
    if |Escape(c)| == 1 {
      assert s[1..] == rest;
    } else if |Escape(c)| == 2 {
      assert s[0] == '\\' && s[1] == Escape(c)[1] && s[2..] == rest;
    } else {
      assert s[0] == '\\' && s[1] == 'u' && s[6..] == rest;
      var quad := s[2..];
      assert quad[0] == '0' && quad[1] == '0' && quad[2] == Text.HexDigit(c as int / 16);
      assert quad[3] == Text.HexDigit(c as int % 16);
    }
  }

  lemma {:induction false} ReadBodyInverse(s: string, rest: string)
    ensures ReadBody(EscapeAll(s) + "\"" + rest) == Some((s, rest))
  {
    hide ReadChar, Escape;
    if s == [] {
      assert (EscapeAll(s) + "\"" + rest)[1..] == rest;
    } else {
      var tail := EscapeAll(s[1..]) + "\"" + rest;
      assert EscapeAll(s) + "\"" + rest == Escape(s[0]) + tail;
      ReadEscaped(s[0], tail);
      ReadBodyInverse(s[1..], rest);
      assert [s[0]] + s[1..] == s;
    }
  }

  /** Reading undoes escaping, whatever follows the closing quote. */
  lemma ReadStringInverse(s: string, rest: string)
    ensures ReadString(JsonString(s) + rest) == Some((s, rest))
  {
    ReadBodyInverse(s, rest);
    assert (JsonString(s) + rest)[1..] == EscapeAll(s) + "\"" + rest;
  }

  /** Characters that stand for themselves inside a string. */
  predicate IsPlain(s: string) {
    forall i :: 0 <= i < |s| ==> s[i] as int >= 0x20 && s[i] != '"' && s[i] != '\\'
  }

  lemma {:induction false} PlainBody(s: string)
    requires IsPlain(s)
    ensures EscapeAll(s) == s
  {
    if s != [] {
      PlainBody(s[1..]);
      assert [s[0]] + s[1..] == s;
    }
  }

  lemma PlainString(s: string)
    requires IsPlain(s)
    ensures JsonString(s) == "\"" + s + "\""
  {
    PlainBody(s);
  }

  // ---------- Values and objects ----------

  datatype Value = Text(text: string) | Number(number: int) | Object(members: seq<Member>)

  datatype Member = Member(name: string, value: Value)

  function PrintNumber(n: int): string {
    if n < 0 then "-" + Text.Decimal(-n) else Text.Decimal(n)
  }

  function Print(v: Value): string
    decreases v, 0
  {
    match v
    case Text(text) => JsonString(text)
    case Number(number) => PrintNumber(number)
    case Object(members) => "{" + PrintMembers(members) + "}"
  }

  /** The members of an object, separated by commas. */
  function PrintMembers(members: seq<Member>): string
    decreases members, 0
  {
    if members == [] then []
    else if |members| == 1 then PrintMember(members[0])
    else PrintMember(members[0]) + "," + PrintMembers(members[1..])
  }

  function PrintMember(m: Member): string
    decreases m, 0
  {
    JsonString(m.name) + ":" + Print(m.value)
  }

  /** The number of digits a text starts with. */
  function DigitRun(s: string): (n: nat)
    ensures n <= |s| && forall i :: 0 <= i < n ==> Text.IsDigit(s[i])
  {
    if s == [] || !Text.IsDigit(s[0]) then 0 else 1 + DigitRun(s[1..])
  }

  function ReadNatural(s: string): (r: Option<(nat, string)>)
    ensures r.Some? ==> |r.value.1| < |s|
  {
    var n := DigitRun(s);
    if n == 0 then None else Some((Text.DecimalValue(s[..n]), s[n..]))
  }

  function ReadNumber(s: string): (r: Option<(int, string)>)
    ensures r.Some? ==> |r.value.1| < |s|
  {
    if s != [] && s[0] == '-' then
      var magnitude := ReadNatural(s[1..]);
      if magnitude.None? then None
      else
        var n: int := magnitude.value.0;
        Some((-n, magnitude.value.1))
    else ReadNatural(s)
  }

  function Read(s: string): (r: Option<(Value, string)>)
    ensures r.Some? ==> |r.value.1| < |s|
    decreases |s|, 0
  {
    if s == [] then None
    else if s[0] == '"' then
      var text := ReadString(s);
      if text.None? then None else Some((Value.Text(text.value.0), text.value.1))
    else if s[0] == '{' then
      if |s| >= 2 && s[1] == '}' then Some((Object([]), s[2..]))
      else
        var members := ReadMembers(s[1..]);
        if members.None? then None else Some((Object(members.value.0), members.value.1))
    else
      var number := ReadNumber(s);
      if number.None? then None else Some((Number(number.value.0), number.value.1))
  }

  /** Members up to the brace that closes their object, and what follows the brace. */
  function ReadMembers(s: string): (r: Option<(seq<Member>, string)>)
    ensures r.Some? ==> |r.value.1| < |s|
    decreases |s|, 1
  {
    var name := ReadString(s);
    if name.None? || name.value.1 == [] || name.value.1[0] != ':' then None
    else
      var value := Read(name.value.1[1..]);
      if value.None? || value.value.1 == [] then None
      else
        var first, rest := Member(name.value.0, value.value.0), value.value.1;
        if rest[0] == '}' then Some(([first], rest[1..]))
        else if rest[0] != ',' then None
        else
          var more := ReadMembers(rest[1..]);
          if more.None? then None else Some(([first] + more.value.0, more.value.1))
  }

  /** A whole text that is one object. */
  function ReadObject(s: string): Option<seq<Member>> {
    var value := Read(s);
    if value.None? || !value.value.0.Object? || value.value.1 != [] then None
    else Some(value.value.0.members)
  }

  /** What can follow a value: not another digit. */
  predicate Delimited(rest: string) {
    rest == [] || !Text.IsDigit(rest[0])
  }

  lemma {:induction false} DigitRunIs(digits: string, rest: string)
    requires forall i :: 0 <= i < |digits| ==> Text.IsDigit(digits[i])
    requires Delimited(rest)
    ensures DigitRun(digits + rest) == |digits|
  {
    if digits == [] {
      assert digits + rest == rest;
    } else {
      assert (digits + rest)[1..] == digits[1..] + rest;
      DigitRunIs(digits[1..], rest);
    }
  }

  lemma ReadNaturalInverse(n: nat, rest: string)
    requires Delimited(rest)
    ensures ReadNatural(Text.Decimal(n) + rest) == Some((n, rest))
  {
    var digits := Text.Decimal(n);
    DigitRunIs(digits, rest);
    Text.DecimalInverse(n);
    assert (digits + rest)[..|digits|] == digits && (digits + rest)[|digits|..] == rest;
  }

  lemma ReadNumberInverse(n: int, rest: string)
    requires Delimited(rest)
    ensures ReadNumber(PrintNumber(n) + rest) == Some((n, rest))
    ensures var s := PrintNumber(n) + rest; s[0] != '"' && s[0] != '{'
  {
    hide Text.Decimal;
    var magnitude := if n < 0 then -n else n;
    ReadNaturalInverse(magnitude, rest);
    if n < 0 {
      assert (PrintNumber(n) + rest)[1..] == Text.Decimal(magnitude) + rest;
    } else {
      assert Text.IsDigit(Text.Decimal(n)[0]);
    }
  }

  /** Reading undoes printing, whatever follows the value. */
  lemma {:induction false} ReadInverse(v: Value, rest: string)
    requires Delimited(rest)
    ensures Read(Print(v) + rest) == Some((v, rest))
    decreases v, 0
  {
    hide PrintNumber, ReadString, ReadNumber, EscapeAll;
    match v
    case Text(text) =>
      ReadStringInverse(text, rest);
    case Number(number) =>
      ReadNumberInverse(number, rest);
    case Object(members) =>
      var s := Print(v) + rest;
      if members == [] {
        assert PrintMembers(members) == "" && s[1] == '}' && s[2..] == rest;
      } else {
        assert s[1..] == PrintMembers(members) + "}" + rest;
        ReadMembersInverse(members, rest);
        assert PrintMembers(members)[0] == '"';
      }
  }

  /** What follows the first value of an object. */
  function After(members: seq<Member>, rest: string): string
    requires members != []
  {
    if |members| == 1 then "}" + rest else "," + (PrintMembers(members[1..]) + "}" + rest)
  }

  lemma Regroup(name: string, value: string, more: string, rest: string)
    ensures name + ":" + value + "}" + rest == name + (":" + (value + ("}" + rest)))
    ensures name + ":" + value + "," + more + "}" + rest == name + (":" + (value + ("," + (more + "}" + rest))))
  {
  }

  lemma FirstMember(members: seq<Member>, rest: string)
    requires members != []
    ensures PrintMembers(members) != [] && PrintMembers(members)[0] == '"'
    ensures PrintMembers(members) + "}" + rest
         == JsonString(members[0].name) + (":" + (Print(members[0].value) + After(members, rest)))
  {
    Regroup(JsonString(members[0].name), Print(members[0].value), PrintMembers(members[1..]), rest);
    var first := PrintMember(members[0]);
    if |members| == 1 {
      assert PrintMembers(members) == first;
    } else {
      assert PrintMembers(members) == first + "," + PrintMembers(members[1..]);
    }
  }

  /** Reading one member leaves the reader at the text that follows it. */
  lemma ReadFirst(m: Member, after: string, s: string)
    requires s == JsonString(m.name) + (":" + (Print(m.value) + after))
    requires after != [] && Read(Print(m.value) + after) == Some((m.value, after))
    ensures after[0] == '}' ==> ReadMembers(s) == Some(([m], after[1..]))
    ensures after[0] == ',' && ReadMembers(after[1..]).Some? ==>
      ReadMembers(s) == Some(([m] + ReadMembers(after[1..]).value.0, ReadMembers(after[1..]).value.1))
  {
    var tail := ":" + (Print(m.value) + after);
    ReadStringInverse(m.name, tail);
    assert tail[1..] == Print(m.value) + after;
  }

  lemma {:induction false} ReadMembersInverse(members: seq<Member>, rest: string)
    requires members != []
    ensures PrintMembers(members) != [] && PrintMembers(members)[0] == '"'
    ensures ReadMembers(PrintMembers(members) + "}" + rest) == Some((members, rest))
    decreases members, 0
  {
    hide PrintMembers, Print, Read, ReadMembers, JsonString;
    var after := After(members, rest);
    FirstMember(members, rest);
    ReadInverse(members[0].value, after);
    ReadFirst(members[0], after, PrintMembers(members) + "}" + rest);
    if |members| == 1 {
      assert after[1..] == rest && members == [members[0]];
    } else {
      ReadMembersInverse(members[1..], rest);
      assert after[1..] == PrintMembers(members[1..]) + "}" + rest;
      assert [members[0]] + members[1..] == members;
    }
  }

  /** Every object survives printing and reading. */
  lemma ReadObjectInverse(members: seq<Member>)
    ensures ReadObject(Print(Object(members))) == Some(members)
  {
    var s := Print(Object(members));
    assert s + [] == s;
    ReadInverse(Object(members), []);
  }

  // ---------- Members by name ----------

  /** The value of the first member of a name. */
  function Lookup(members: seq<Member>, name: string): Option<Value> {
    if members == [] then None
    else if members[0].name == name then Some(members[0].value)
    else Lookup(members[1..], name)
  }

  function GetText(members: seq<Member>, name: string): Option<string> {
    var v := Lookup(members, name);
    if v.Some? && v.value.Text? then Some(v.value.text) else None
  }

  function GetNumber(members: seq<Member>, name: string): Option<int> {
    var v := Lookup(members, name);
    if v.Some? && v.value.Number? then Some(v.value.number) else None
  }

  function GetObject(members: seq<Member>, name: string): Option<seq<Member>> {
    var v := Lookup(members, name);
    if v.Some? && v.value.Object? then Some(v.value.members) else None
  }

  /** Lookup finds the member at an index whose name does not occur before it. */
  lemma {:induction false} LookupAt(members: seq<Member>, k: nat)
    requires k < |members| && forall j :: 0 <= j < k ==> members[j].name != members[k].name
    ensures Lookup(members, members[k].name) == Some(members[k].value)
  {
    if k > 0 {
      assert members[0].name != members[k].name;
      LookupAt(members[1..], k - 1);
    }
  }

  lemma {:induction false} LookupAbsent(members: seq<Member>, name: string)
    requires forall j :: 0 <= j < |members| ==> members[j].name != name
    ensures Lookup(members, name) == None
  {
    if members != [] {
      LookupAbsent(members[1..], name);
    }
  }
}
