// Compact JSON text of a flat object, as serde_json prints it, and a decoder that inverts it.
module Json {
  import opened Basics
  import opened Text

  datatype Value = Null | Str(text: string) | Num(n: int)
  datatype Member = Member(name: string, value: Value)

  // ---------- Printer ----------

  /** String escapes of serde_json (section 7 of RFC 8259): two-character escapes where they exist,
      `\u00XX` for the other control characters, everything else verbatim. */
  function EscapeChar(c: char): (s: string)
    ensures s != ""
  {
    if c == '\"' then "\\\""
    else if c == '\\' then "\\\\"
    else if c as int == 8 then "\\b"
    else if c as int == 9 then "\\t"
    else if c as int == 10 then "\\n"
    else if c as int == 12 then "\\f"
    else if c as int == 13 then "\\r"
    else if c as int < 32 then "\\u00" + [HexDigit(c as int / 16), HexDigit(c as int % 16)]
    else [c]
  }

  function Escape(s: string): string {
    if s == "" then "" else EscapeChar(s[0]) + Escape(s[1..])
  }

  function Quote(s: string): string { "\"" + (Escape(s) + "\"") }

  function PrintValue(v: Value): string {
    match v
    case Null => "null"
    case Str(s) => Quote(s)
    case Num(n) => SignedDecimal(n)
  }

  function PrintMember(m: Member): string { Quote(m.name) + (":" + PrintValue(m.value)) }

  /** Members after the first, and the closing brace. */
  function PrintTail(ms: seq<Member>): string {
    if ms == [] then "}" else "," + (PrintMember(ms[0]) + PrintTail(ms[1..]))
  }

  function PrintObject(ms: seq<Member>): string {
    if ms == [] then "{}" else "{" + (PrintMember(ms[0]) + PrintTail(ms[1..]))
  }

  lemma EscapeOne(c: char)
    ensures Escape([c]) == EscapeChar(c)
  {
    hide EscapeChar;
    assert [c][1..] == "" && Escape("") == "";
    assert EscapeChar(c) + "" == EscapeChar(c);
  }

  /** How quotes, backslashes and control characters are written; a slash is not escaped. */
  lemma EscapesAre()
    ensures Escape("\"") == "\\\"" && Escape("\\") == "\\\\" && Escape("/") == "/"
    ensures Escape([8 as char]) == "\\b" && Escape([9 as char]) == "\\t" && Escape([10 as char]) == "\\n"
    ensures Escape([12 as char]) == "\\f" && Escape([13 as char]) == "\\r"
    ensures Escape([1 as char]) == "\\u0001" && Escape([31 as char]) == "\\u001f"
  {
    forall c: char { EscapeOne(c); }
    hide Escape;
  }

  lemma OneLetterMember(c: char, v: Value)
    requires c != '\"' && c != '\\' && c as int >= 32
    ensures PrintMember(Member([c], v)) == "\"" + [c] + "\":" + PrintValue(v)
  {
    EscapeOne(c);
    assert EscapeChar(c) == [c];
    hide PrintValue, Escape, EscapeChar;
    assert Quote([c]) == "\"" + [c] + "\"";
  }

  lemma TwoMembers(m: Member, n: Member)
    ensures PrintObject([m, n]) == "{" + (PrintMember(m) + ("," + (PrintMember(n) + "}")))
  {
    hide PrintMember;
    assert [m, n][1..] == [n] && [n][1..] == [];
    assert PrintTail([n]) == "," + (PrintMember(n) + PrintTail([]));
  }

  /** No blanks anywhere. */
  lemma CompactForm(c: char, v: Value, d: char, w: Value)
    requires c != '\"' && c != '\\' && c as int >= 32 && d != '\"' && d != '\\' && d as int >= 32
    ensures PrintObject([Member([c], v), Member([d], w)])
      == "{" + (("\"" + [c] + "\":" + PrintValue(v)) + ("," + (("\"" + [d] + "\":" + PrintValue(w)) + "}")))
  {
    hide *;
    OneLetterMember(c, v);
    OneLetterMember(d, w);
    TwoMembers(Member([c], v), Member([d], w));
  }

  // ---------- Decoder ----------

  datatype Parsed<T> = Bad | Got(value: T, rest: string)

  function HexValue(c: char): Option<nat> {
    if IsDigit(c) then Some(c as int - 48) else if 'a' <= c <= 'f' then Some(c as int - 87) else None
  }

  /** One possibly escaped character of a string body. */
  function ReadChar(t: string): (r: Parsed<char>)
    ensures r.Got? ==> |r.rest| < |t|
  {
    if t == "" then Bad
    else if t[0] != '\\' then (if t[0] == '\"' || t[0] as int < 32 then Bad else Got(t[0], t[1..]))
    else if |t| < 2 then Bad
    else if t[1] == '\"' || t[1] == '\\' then Got(t[1], t[2..])
    else if t[1] == 'b' then Got(8 as char, t[2..])
    else if t[1] == 't' then Got(9 as char, t[2..])
    else if t[1] == 'n' then Got(10 as char, t[2..])
    else if t[1] == 'f' then Got(12 as char, t[2..])
    else if t[1] == 'r' then Got(13 as char, t[2..])
    else if |t| < 6 || t[..4] != "\\u00" then Bad
    else match (HexValue(t[4]), HexValue(t[5]))
      case (Some(h), Some(l)) => if h < 16 && l < 16 then Got((16 * h + l) as char, t[6..]) else Bad
      case _ => Bad
  }

  /** The rest of a string body, up to and including its closing quote. */
  function ReadBody(t: string): (r: Parsed<string>)
    ensures r.Got? ==> |r.rest| < |t|
    decreases |t|
  {
    if t != "" && t[0] == '\"' then Got("", t[1..])
    else match ReadChar(t)
      case Bad => Bad
      case Got(c, rest) =>
        match ReadBody(rest)
        case Bad => Bad
        case Got(s, rest') => Got([c] + s, rest')
  }

  function ReadString(t: string): (r: Parsed<string>)
    ensures r.Got? ==> |r.rest| < |t|
  {
    if t != "" && t[0] == '\"' then ReadBody(t[1..]) else Bad
  }

  function DigitPrefix(t: string): (k: nat)
    ensures k <= |t| && AllDigits(t[..k])
    ensures k < |t| ==> !IsDigit(t[k])
  {
    if t == "" || !IsDigit(t[0]) then 0
    else
      var k := DigitPrefix(t[1..]);
      assert t[..k + 1] == [t[0]] + t[1..][..k];
      k + 1
  }

  function ReadInt(t: string): (r: Parsed<int>)
    ensures r.Got? ==> |r.rest| < |t|
  {
    var negative := t != "" && t[0] == '-';
    var u := if negative then t[1..] else t;
    var k := DigitPrefix(u);
    if k == 0 then Bad
    else
      var n: int := DigitsValue(u[..k]);
      Got(if negative then -n else n, u[k..])
  }

  function ReadValue(t: string): (r: Parsed<Value>)
    ensures r.Got? ==> |r.rest| < |t|
  {
    if t == "" then Bad
    else if t[0] == '\"' then
      match ReadString(t)
      case Bad => Bad
      case Got(s, rest) => Got(Str(s), rest)
    else if |t| >= 4 && t[..4] == "null" then Got(Null, t[4..])
    else
      match ReadInt(t)
      case Bad => Bad
      case Got(n, rest) => Got(Num(n), rest)
  }

  function ReadMember(t: string): (r: Parsed<Member>)
    ensures r.Got? ==> |r.rest| < |t|
  {
    match ReadString(t)
    case Bad => Bad
    case Got(name, rest) =>
      if rest == "" || rest[0] != ':' then Bad
      else
        match ReadValue(rest[1..])
        case Bad => Bad
        case Got(v, rest') => Got(Member(name, v), rest')
  }

  function ReadTail(t: string): Option<seq<Member>>
    decreases |t|
  {
    if t == "}" then Some([])
    else if t == "" || t[0] != ',' then None
    else
      match ReadMember(t[1..])
      case Bad => None
      case Got(m, rest) =>
        match ReadTail(rest)
        case None => None
        case Some(ms) => Some([m] + ms)
  }

  function ReadObject(t: string): Option<seq<Member>> {
    if t == "{}" then Some([])
    else if t == "" || t[0] != '{' then None
    else
      match ReadMember(t[1..])
      case Bad => None
      case Got(m, rest) =>
        match ReadTail(rest)
        case None => None
        case Some(ms) => Some([m] + ms)
  }

  // ---------- The decoder inverts the printer ----------

  lemma ReadEscapedChar(c: char, rest: string)
    ensures ReadChar(EscapeChar(c) + rest) == Got(c, rest)
    ensures EscapeChar(c)[0] != '\"'
  {
    var t := EscapeChar(c) + rest;
    if c == '\"' || c == '\\' || c as int in {8, 9, 10, 12, 13} {
      assert t[2..] == rest;
    } else if c as int < 32 {
      assert t[..4] == "\\u00" && t[6..] == rest;
    } else {
      assert t[1..] == rest;
    }
  }

  lemma SplitAt(x: string, y: string)
    ensures (x + y)[..|x|] == x && (x + y)[|x|..] == y
  {
  }

  lemma ReadBodyStep(t: string, c: char, rest: string, s: string, end: string)
    requires t != "" && t[0] != '\"' && ReadChar(t) == Got(c, rest) && ReadBody(rest) == Got(s, end)
    ensures ReadBody(t) == Got([c] + s, end)
  {
    hide ReadChar;
  }

  lemma ReadBodyEnd(rest: string)
    ensures ReadBody("\"" + rest) == Got("", rest)
  {
    hide ReadChar;
    SplitAt("\"", rest);
  }

  lemma EscapeUnfolds(c: char, s: string, tail: string)
    ensures Escape([c] + s) + tail == EscapeChar(c) + (Escape(s) + tail)
    ensures Escape("") + tail == tail
  {
    hide EscapeChar;
    assert ([c] + s)[1..] == s;
  }

  lemma {:induction false} ReadEscaped(s: string, rest: string)
    ensures ReadBody(Escape(s) + ("\"" + rest)) == Got(s, rest)
  {
    hide ReadBody, ReadChar, Escape, EscapeChar;
    var end := "\"" + rest;
    if s == "" {
      EscapeUnfolds('x', s, end);
      ReadBodyEnd(rest);
    } else {
      var c, s' := s[0], s[1..];
      assert [c] + s' == s;
      var tail := Escape(s') + end;
      EscapeUnfolds(c, s', end);
      ReadEscapedChar(c, tail);
      ReadEscaped(s', rest);
      assert (EscapeChar(c) + tail)[0] == EscapeChar(c)[0];
      ReadBodyStep(EscapeChar(c) + tail, c, tail, s', rest);
    }
  }

  lemma ReadQuoted(s: string, rest: string)
    ensures ReadString(Quote(s) + rest) == Got(s, rest)
  {
    ReadEscaped(s, rest);
    hide ReadBody, Escape;
    var t := Quote(s) + rest;
    assert t[0] == '\"' && t[1..] == Escape(s) + ("\"" + rest);
  }

  lemma {:induction false} DigitPrefixOf(ds: string, rest: string)
    requires AllDigits(ds) && (rest == "" || !IsDigit(rest[0]))
    ensures DigitPrefix(ds + rest) == |ds|
  {
    if ds == "" {
      assert ds + rest == rest;
    } else {
      assert (ds + rest)[1..] == ds[1..] + rest;
      DigitPrefixOf(ds[1..], rest);
    }
  }

  lemma ReadUnsigned(ds: string, rest: string)
    requires ds != "" && AllDigits(ds) && (rest == "" || !IsDigit(rest[0]))
    ensures ReadInt(ds + rest) == Got(DigitsValue(ds), rest)
  {
    DigitPrefixOf(ds, rest);
    hide DigitPrefix, DigitsValue;
    var u := ds + rest;
    assert u[0] == ds[0] && IsDigit(ds[0]);
    assert u[..|ds|] == ds && u[|ds|..] == rest;
  }

  lemma ReadAfterMinus(u: string)
    requires DigitPrefix(u) > 0
    ensures ReadInt("-" + u) == Got(-(DigitsValue(u[..DigitPrefix(u)]) as int), u[DigitPrefix(u)..])
  {
    hide DigitPrefix, DigitsValue;
    var t := "-" + u;
    assert t[0] == '-' && t[1..] == u;
  }

  lemma ReadNegative(ds: string, rest: string)
    requires ds != "" && AllDigits(ds) && (rest == "" || !IsDigit(rest[0]))
    ensures ReadInt("-" + (ds + rest)) == Got(-(DigitsValue(ds) as int), rest)
  {
    hide ReadInt, DigitPrefix, DigitsValue, AllDigits;
    DigitPrefixOf(ds, rest);
    SplitAt(ds, rest);
    ReadAfterMinus(ds + rest);
  }

  lemma ReadSigned(n: int, rest: string)
    requires rest == "" || !IsDigit(rest[0])
    ensures ReadInt(SignedDecimal(n) + rest) == Got(n, rest)
  {
    var m := if n < 0 then -n else n;
    DecimalValue(m);
    if n < 0 { ReadNegative(Decimal(m), rest); } else { ReadUnsigned(Decimal(m), rest); }
    hide ReadInt, Decimal, DigitsValue;
    if n < 0 { assert SignedDecimal(n) + rest == "-" + (Decimal(m) + rest); }
  }

  lemma ReadPrinted(v: Value, rest: string)
    requires rest != "" && !IsDigit(rest[0])
    ensures ReadValue(PrintValue(v) + rest) == Got(v, rest)
  {
    var t := PrintValue(v) + rest;
    match v
    case Null =>
      assert t[..4] == "null" && t[4..] == rest;
    case Str(s) =>
      ReadQuoted(s, rest);
    case Num(n) =>
      ReadSigned(n, rest);
      assert IsDigit(t[0]) || t[0] == '-';
      assert t[..|t|][0] != "null"[0];
  }

  lemma ReadPrintedMember(m: Member, rest: string)
    requires rest != "" && !IsDigit(rest[0])
    ensures ReadMember(PrintMember(m) + rest) == Got(m, rest)
  {
    var tail := ":" + PrintValue(m.value) + rest;
    assert PrintMember(m) + rest == Quote(m.name) + tail;
    ReadQuoted(m.name, tail);
    assert tail[1..] == PrintValue(m.value) + rest;
    ReadPrinted(m.value, rest);
  }

  lemma ReadOneMore(t: string, m: Member, rest: string, ms: seq<Member>)
    requires t != "" && t[0] == ',' && ReadMember(t[1..]) == Got(m, rest) && ReadTail(rest) == Some(ms)
    ensures ReadTail(t) == Some([m] + ms)
  {
    hide ReadMember;
    assert t != "}" by { assert "}"[0] != ','; }
  }

  lemma PrintedTail(m: Member, ms: seq<Member>)
    ensures var t := PrintTail([m] + ms); t != "" && t[0] == ',' && t[1..] == PrintMember(m) + PrintTail(ms)
  {
    hide PrintMember;
    assert ([m] + ms)[1..] == ms;
  }

  lemma {:induction false} ReadPrintedTail(ms: seq<Member>)
    ensures ReadTail(PrintTail(ms)) == Some(ms)
    ensures PrintTail(ms) != "" && !IsDigit(PrintTail(ms)[0])
  {
    if ms != [] {
      hide ReadMember, PrintMember, PrintTail, ReadTail;
      var m, rest := ms[0], ms[1..];
      ReadPrintedTail(rest);
      assert [m] + rest == ms;
      PrintedTail(m, rest);
      ReadPrintedMember(m, PrintTail(rest));
      ReadOneMore(PrintTail(ms), m, PrintTail(rest), rest);
    }
  }

  lemma PrintedObject(ms: seq<Member>)
    requires ms != []
    ensures var t := PrintObject(ms);
      t != "" && t[0] == '{' && t[1..] == PrintMember(ms[0]) + PrintTail(ms[1..]) && t != "{}"
  {
    assert PrintObject(ms)[1] == '\"';
    hide PrintMember, PrintTail;
    assert "{}"[1] != '\"';
  }

  lemma ReadFirst(t: string, m: Member, rest: string, ms: seq<Member>)
    requires t != "" && t[0] == '{' && t != "{}" && ReadMember(t[1..]) == Got(m, rest) && ReadTail(rest) == Some(ms)
    ensures ReadObject(t) == Some([m] + ms)
  {
    hide ReadMember, ReadTail;
  }

  /** Decoding what was printed gives back every member, in order. */
  lemma ObjectRoundTrip(ms: seq<Member>)
    ensures ReadObject(PrintObject(ms)) == Some(ms)
  {
    if ms != [] {
      hide PrintObject, ReadObject, PrintMember, PrintTail, ReadMember, ReadTail;
      PrintedObject(ms);
      ReadPrintedTail(ms[1..]);
      ReadPrintedMember(ms[0], PrintTail(ms[1..]));
      ReadFirst(PrintObject(ms), ms[0], PrintTail(ms[1..]), ms[1..]);
      assert [ms[0]] + ms[1..] == ms;
    }
  }

  /** Equal texts print equal members. */
  lemma ObjectTextInjective(ms: seq<Member>, ns: seq<Member>)
    requires PrintObject(ms) == PrintObject(ns)
    ensures ms == ns
  {
    ObjectRoundTrip(ms);
    ObjectRoundTrip(ns);
  }
}
