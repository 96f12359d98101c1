/** The JSON of a wire message in plain sight: what is written, character by character, and which texts
    are read as which message. */
module JsonForms {
  import opened Basics
  import opened Json

  // ---- what is written ----

  const HEX_DIGITS := "0123456789abcdef"

  /** The printed object: three members in this order, no spaces, the type as its own name. */
  lemma PrintedText(m: WireMessage)
    ensures Print(m) == "{\"type\":\"" + Tag(m.kind) + "\",\"name\":\"" + Escape(m.name)
                      + "\",\"text\":\"" + Escape(m.text) + "\"}"
  {
    Opened(m);
    hide Print, Tag;
    hide Escape, PrintMore, Member;
    TagPlain(m.kind);
    MemberText("type", Tag(m.kind));
    MemberText("name", m.name);
    MemberText("text", m.text);
    TwoMore(m.name, m.text);
    Assembled(Tag(m.kind), Escape(m.name), Escape(m.text));
  }

  lemma Opened(m: WireMessage)
    ensures Print(m) == ['{'] + (Member("type", Tag(m.kind)) + PrintMore([("name", m.name), ("text", m.text)]))
  {
  }

  lemma TagTexts()
    ensures Tag(Chat) == "Chat" && Tag(System) == "System" && Tag(Ping) == "Ping" && Tag(Pong) == "Pong"
  {
  }

  lemma Assembled(tag: string, name: string, text: string)
    ensures ['{'] + (("\"type\":\"" + tag + "\"")
              + ([','] + (("\"name\":\"" + name + "\"") + ([','] + (("\"text\":\"" + text + "\"") + ['}'])))))
         == "{\"type\":\"" + tag + "\",\"name\":\"" + name + "\",\"text\":\"" + text + "\"}"
  {
    var q, c := "\"", [','];
    var t, n, x := "\"type\":\"", "\"name\":\"", "\"text\":\"";
    assert ['{'] + t == "{\"type\":\"" && q + ['}'] == "\"}";
    assert q + c + n == "\",\"name\":\"" && q + c + x == "\",\"text\":\"";
    Glued(['{'], t, tag, q, c, n, name, x, text, ['}']);
  }

  lemma Glued(
      o: string, t: string, tag: string, q: string, c: string,
      n: string, name: string, x: string, text: string, e: string)
    ensures o + ((t + tag + q) + (c + ((n + name + q) + (c + ((x + text + q) + e)))))
         == (o + t) + tag + (q + c + n) + name + (q + c + x) + text + (q + e)
  {
  }

  lemma TwoMore(name: string, text: string)
    ensures PrintMore([("name", name), ("text", text)])
         == [','] + (Member("name", name) + ([','] + (Member("text", text) + ['}'])))
  {
    hide Member;
    var n, t := ("name", name), ("text", text);
    assert [n, t][1..] == [t] && [t][1..] == [];
    assert PrintMore([t]) == [','] + (Member("text", text) + PrintMore([]));
  }

  lemma TagPlain(kind: Kind)
    ensures Escape(Tag(kind)) == Tag(kind)
  {
    hide Escape;
    PlainMember(Tag(kind));
  }

  lemma MemberText(key: string, value: string)
    requires key in {"type", "name", "text"}
    ensures Member(key, value) == "\"" + key + "\":\"" + Escape(value) + "\""
  {
    hide Escape;
    PlainMember(key);
    assert ['"'] + key + ['"'] + [':'] + (['"'] + Escape(value) + ['"']) == "\"" + key + "\":\"" + Escape(value) + "\"";
  }

  lemma PlainMember(s: string)
    requires forall i :: 0 <= i < |s| ==> 0x20 <= s[i] as int < 0x80 && s[i] != '"' && s[i] != '\\'
    ensures Escape(s) == s
  {
    PlainSize(s);
  }

  /** Section 7 of RFC 8259: quote, backslash and control characters are escaped, in the short form where
      there is one and else with four lower-case hex digits; nothing else is. */
  lemma EscapedText(c: char)
    ensures Escape("\"") == "\\\"" && Escape("\\") == "\\\\"
    ensures Escape("\n") == "\\n" && Escape("\r") == "\\r" && Escape("\t") == "\\t"
    ensures Escape([8 as char]) == "\\b" && Escape([12 as char]) == "\\f"
    ensures c as int < 0x20 && c as int !in {8, 9, 10, 12, 13}
        ==> Escape([c]) == "\\u00" + [HEX_DIGITS[c as int / 16], HEX_DIGITS[c as int % 16]]
    ensures c as int >= 0x20 && c != '"' && c != '\\' ==> Escape([c]) == [c]
  {
    One('"');
    One('\\');
    One('\n');
    One('\r');
    One('\t');
    One(8 as char);
    One(12 as char);
    One(c);
    if c as int < 0x20 {
      HexDigitText(c as int / 16);
      HexDigitText(c as int % 16);
    }
  }

  lemma One(c: char)
    ensures Escape([c]) == EscapeChar(c)
  {
    assert [c][1..] == "";
  }

  lemma HexDigitText(n: nat)
    requires n < 16
    ensures HexDigit(n) == HEX_DIGITS[n]
  {
  }

  lemma {:induction false} EscapeAppend(s: string, t: string)
    ensures Escape(s + t) == Escape(s) + Escape(t)
  {
    hide EscapeChar;
    if s == "" {
      assert s + t == t;
    } else {
      assert (s + t)[0] == s[0] && (s + t)[1..] == s[1..] + t;
      EscapeAppend(s[1..], t);
    }
  }

  // ---- what is read ----

  /** A member with white space before its key, around its colon and behind its value. */
  datatype Loose = Loose(key: string, value: string, before: string, colon: string, after: string, behind: string)

  predicate Spaces(s: string) { forall i :: 0 <= i < |s| ==> s[i] in {' ', '\t', '\n', '\r'} }

  predicate Spaced(m: Loose) { Spaces(m.before) && Spaces(m.colon) && Spaces(m.after) && Spaces(m.behind) }

  /** A member from its key on. */
  function FromKey(m: Loose): string { Quote(m.key) + (m.colon + ([':'] + (m.after + (Quote(m.value) + m.behind)))) }

  /** Further members, the closing brace and what follows it. */
  function More(ms: seq<Loose>, rest: string): string {
    if ms == [] then ['}'] + rest else [','] + (ms[0].before + (FromKey(ms[0]) + More(ms[1..], rest)))
  }

  function Object(ms: seq<Loose>, lead: string, end: string): string {
    lead + (['{'] + (if ms == [] then ['}'] + end else ms[0].before + (FromKey(ms[0]) + More(ms[1..], end))))
  }

  lemma {:induction false} SkipsSpaces(w: string, rest: string)
    requires Spaces(w) && (rest == "" || !IsSpace(rest[0]))
    ensures SkipSpace(w + rest) == rest
  {
    if w == "" {
      assert w + rest == rest;
    } else {
      assert (w + rest)[1..] == w[1..] + rest && (w + rest)[0] == w[0];
      SkipsSpaces(w[1..], rest);
    }
  }

  lemma {:induction false} SkipsOnlySpaces(s: string)
    ensures SkipSpace(s) == "" <==> Spaces(s)
  {
    if s != "" && IsSpace(s[0]) {
      SkipsOnlySpaces(s[1..]);
      assert Spaces(s) <==> Spaces(s[1..]) by {
        assert forall i :: 1 <= i < |s| ==> s[i] == s[1..][i - 1];
        assert forall i :: 0 <= i < |s| - 1 ==> s[1..][i] == s[i + 1];
      }
    }
  }

  lemma MoreStarts(ms: seq<Loose>, rest: string)
    ensures More(ms, rest) != "" && !IsSpace(More(ms, rest)[0])
  {
  }

  lemma LooseReads(m: Loose, rest: string)
    requires Spaced(m) && (rest == "" || !IsSpace(rest[0]))
    ensures ReadMember(FromKey(m) + rest) == Some((m.key, m.value, rest))
    ensures FromKey(m) + rest != "" && !IsSpace((FromKey(m) + rest)[0])
  {
    hide Escape, ReadString;
    var c := Quote(m.value) + (m.behind + rest);
    var b := [':'] + (m.after + c);
    var a := m.colon + b;
    assert FromKey(m) + rest == Quote(m.key) + a;
    QuotedReads(m.key, a);
    SkipsSpaces(m.colon, b);
    assert b[1..] == m.after + c;
    SkipsSpaces(m.after, c);
    QuotedReads(m.value, m.behind + rest);
    SkipsSpaces(m.behind, rest);
  }

  /** The fields after the members, if each may be stored. */
  function Stored(f: Fields, ms: seq<Loose>): Option<Fields>
    decreases |ms|
  {
    if ms == [] then Some(f)
    else match SetField(f, ms[0].key, ms[0].value)
      case None => None
      case Some(g) => Stored(g, ms[1..])
  }

  predicate AllSpaced(ms: seq<Loose>) { forall i :: 0 <= i < |ms| ==> Spaced(ms[i]) }

  lemma {:induction false} MoreReads(ms: seq<Loose>, rest: string, f: Fields)
    requires AllSpaced(ms)
    ensures ReadMembers(More(ms, rest), f, false)
         == match Stored(f, ms) case None => None case Some(g) => Some((g, rest))
  {
    hide FromKey, ReadMember, SetField, Spaced;
    if ms == [] {
      assert (['}'] + rest)[1..] == rest;
    } else {
      var m, tail := ms[0], More(ms[1..], rest);
      var text := More(ms, rest);
      assert text[1..] == m.before + (FromKey(m) + tail);
      MoreStarts(ms[1..], rest);
      LooseReads(m, tail);
      SpacedBefore(m);
      SkipsSpaces(m.before, FromKey(m) + tail);
      if SetField(f, m.key, m.value).Some? { MoreReads(ms[1..], rest, SetField(f, m.key, m.value).value); }
    }
  }

  lemma SpacedBefore(m: Loose)
    requires Spaced(m)
    ensures Spaces(m.before)
  {
  }

  /** What an object's members make of it: `type` must be there, the others default to empty. */
  function Meant(f: Option<Fields>): Option<WireMessage> {
    if f.None? || f.value.kind.None? then None
    else Some(WireMessage(f.value.kind.value,
                          if f.value.name.Some? then f.value.name.value else "",
                          if f.value.text.Some? then f.value.text.value else ""))
  }

  /** An object is read by its members, whatever their order and wherever white space stands; with anything
      but white space behind it, it is refused. */
  lemma ObjectReads(ms: seq<Loose>, lead: string, end: string)
    requires AllSpaced(ms) && Spaces(lead)
    ensures Spaces(end) ==> Parse(Object(ms, lead, end)) == Meant(Stored(Fields(None, None, None), ms))
    ensures !Spaces(end) ==> Parse(Object(ms, lead, end)) == None
  {
    SkipsOnlySpaces(end);
    hide FromKey, ReadMember, SetField, Spaced;
    var none := Fields(None, None, None);
    var body := if ms == [] then ['}'] + end else ms[0].before + (FromKey(ms[0]) + More(ms[1..], end));
    SkipsSpaces(lead, ['{'] + body);
    assert (['{'] + body)[1..] == body;
    if ms == [] {
      assert SkipSpace(body) == body && body[1..] == end;
    } else {
      MoreStarts(ms[1..], end);
      LooseReads(ms[0], More(ms[1..], end));
      SpacedBefore(ms[0]);
      SkipsSpaces(ms[0].before, FromKey(ms[0]) + More(ms[1..], end));
      FirstReads(ms, end, none);
    }
  }

  lemma FirstReads(ms: seq<Loose>, end: string, f: Fields)
    requires ms != [] && AllSpaced(ms)
    ensures ReadMembers(FromKey(ms[0]) + More(ms[1..], end), f, true)
         == match Stored(f, ms) case None => None case Some(g) => Some((g, end))
  {
    hide ReadMember, SetField, Spaced, Escape;
    MoreStarts(ms[1..], end);
    LooseReads(ms[0], More(ms[1..], end));
    assert (FromKey(ms[0]) + More(ms[1..], end))[0] == '"';
    if SetField(f, ms[0].key, ms[0].value).Some? {
      MoreReads(ms[1..], end, SetField(f, ms[0].key, ms[0].value).value);
    }
  }

  /** The members are known, none comes twice, and the type is one of the four. */
  predicate Good(ms: seq<Loose>) {
    && (forall i :: 0 <= i < |ms| ==> ms[i].key in {"type", "name", "text"})
    && (forall i, j :: 0 <= i < j < |ms| ==> ms[i].key != ms[j].key)
    && (forall i :: 0 <= i < |ms| && ms[i].key == "type" ==> ms[i].value in {"Chat", "System", "Ping", "Pong"})
  }

  /** The value of a member, if it is there. */
  function ValueOf(ms: seq<Loose>, key: string): Option<string> {
    if ms == [] then None else if ms[0].key == key then Some(ms[0].value) else ValueOf(ms[1..], key)
  }

  function KindNamed(tag: Option<string>): Option<Kind> {
    if tag == Some("Chat") then Some(Chat)
    else if tag == Some("System") then Some(System)
    else if tag == Some("Ping") then Some(Ping)
    else if tag == Some("Pong") then Some(Pong)
    else None
  }

  predicate Free(f: Fields, key: string) {
    (key == "type" ==> f.kind.None?) && (key == "name" ==> f.name.None?) && (key == "text" ==> f.text.None?)
  }

  function Either<T>(a: Option<T>, b: Option<T>): Option<T> { if a.Some? then a else b }

  lemma {:induction false} StoredExactly(f: Fields, ms: seq<Loose>)
    ensures Stored(f, ms).Some? <==> Good(ms) && forall i :: 0 <= i < |ms| ==> Free(f, ms[i].key)
    ensures Stored(f, ms).Some? ==> Stored(f, ms).value == Fields(
      Either(f.kind, KindNamed(ValueOf(ms, "type"))),
      Either(f.name, ValueOf(ms, "name")),
      Either(f.text, ValueOf(ms, "text")))
    decreases |ms|
  {
    if ms != [] {
      var m := ms[0];
      if SetField(f, m.key, m.value).Some? {
        var g := SetField(f, m.key, m.value).value;
        StoredExactly(g, ms[1..]);
        OneStored(f, g, ms);
      } else {
        NotStored(f, ms);
      }
    }
  }

  lemma NotStored(f: Fields, ms: seq<Loose>)
    requires ms != [] && SetField(f, ms[0].key, ms[0].value).None?
    ensures !(Good(ms) && forall i :: 0 <= i < |ms| ==> Free(f, ms[i].key))
  {
    assert ms[0] == ms[0];
  }

  lemma OneStored(f: Fields, g: Fields, ms: seq<Loose>)
    requires ms != [] && SetField(f, ms[0].key, ms[0].value) == Some(g)
    ensures (Good(ms[1..]) && forall i :: 0 <= i < |ms| - 1 ==> Free(g, ms[1..][i].key))
       <==> (Good(ms) && forall i :: 0 <= i < |ms| ==> Free(f, ms[i].key))
  {
    var rest := ms[1..];
    assert forall i :: 0 <= i < |rest| ==> rest[i] == ms[i + 1];
    assert forall i :: 1 <= i < |ms| ==> ms[i] == rest[i - 1];
  }

  /** Which objects of string members are read as a message, and as which: exactly those with known members,
      none twice, and a type among the four, with nothing but space behind; `name` and `text` may be
      missing. */
  lemma ReadsExactly(ms: seq<Loose>, lead: string, end: string)
    requires AllSpaced(ms) && Spaces(lead)
    ensures Parse(Object(ms, lead, end))
         == if !Spaces(end) || !Good(ms) || KindNamed(ValueOf(ms, "type")).None? then None
            else Some(WireMessage(
              KindNamed(ValueOf(ms, "type")).value,
              if ValueOf(ms, "name").Some? then ValueOf(ms, "name").value else "",
              if ValueOf(ms, "text").Some? then ValueOf(ms, "text").value else ""))
  {
    ObjectReads(ms, lead, end);
    StoredExactly(Fields(None, None, None), ms);
  }

  // ---- escapes that are read but never written ----

  /** `\\/` is a slash, and `\\u` with four hex digits of either case the character of that number, or the
      two halves of one beyond 16 bits. */
  lemma OtherEscapes(c: char, upper: bool, rest: string)
    ensures ReadChar("\\/" + rest) == Some(('/', rest))
    ensures c as int < 0x1_0000 ==> ReadChar("\\u" + Four(c as int, upper) + rest) == Some((c, rest))
    ensures c as int >= 0x1_0000 ==>
      ReadChar("\\u" + Four(0xD800 + (c as int - 0x1_0000) / 0x400, upper)
               + "\\u" + Four(0xDC00 + (c as int - 0x1_0000) % 0x400, upper) + rest) == Some((c, rest))
  {
    var slash := "\\/" + rest;
    assert slash[0] == '\\' && slash[1] == '/' && slash[2..] == rest;
    if c as int < 0x1_0000 {
      var s := "\\u" + Four(c as int, upper) + rest;
      assert s[0] == '\\' && s[1] == 'u' && s[2..] == Four(c as int, upper) + rest;
      FourReads(c as int, upper, rest);
      assert (Four(c as int, upper) + rest)[4..] == rest;
    } else {
      Halves(c, upper, rest);
    }
  }

  function Digit(n: nat, upper: bool): char
    requires n < 16
  {
    (if upper then "0123456789ABCDEF" else "0123456789abcdef")[n]
  }

  /** Four hex digits. */
  function Four(n: nat, upper: bool): (s: string)
    requires n < 0x1_0000
    ensures |s| == 4
  {
    [Digit(n / 0x1000, upper), Digit(n / 0x100 % 16, upper), Digit(n / 16 % 16, upper), Digit(n % 16, upper)]
  }

  lemma DigitReads(n: nat, upper: bool)
    requires n < 16
    ensures HexValue(Digit(n, upper)) == Some(n)
  {
  }

  lemma FourReads(n: nat, upper: bool, rest: string)
    requires n < 0x1_0000
    ensures Hex4(Four(n, upper) + rest) == Some(n)
  {
    hide Digit, HexValue;
    DigitReads(n / 0x1000, upper);
    DigitReads(n / 0x100 % 16, upper);
    DigitReads(n / 16 % 16, upper);
    DigitReads(n % 16, upper);
    var s := Four(n, upper) + rest;
    assert s[0] == Four(n, upper)[0] && s[1] == Four(n, upper)[1];
    assert s[2] == Four(n, upper)[2] && s[3] == Four(n, upper)[3];
    FourValue(n);
  }

  lemma FourValue(n: nat)
    requires n < 0x1_0000
    ensures ((n / 0x1000 * 16 + n / 0x100 % 16) * 16 + n / 16 % 16) * 16 + n % 16 == n
  {
    assert n / 0x100 == n / 0x1000 * 16 + n / 0x100 % 16;
    assert n / 16 == n / 0x100 * 16 + n / 16 % 16;
  }

  lemma Halves(c: char, upper: bool, rest: string)
    requires c as int >= 0x1_0000
    ensures ReadChar("\\u" + Four(0xD800 + (c as int - 0x1_0000) / 0x400, upper)
                     + "\\u" + Four(0xDC00 + (c as int - 0x1_0000) % 0x400, upper) + rest) == Some((c, rest))
  {
    hide Four;
    var n := c as int - 0x1_0000;
    var high, low := 0xD800 + n / 0x400, 0xDC00 + n % 0x400;
    var tail := "\\u" + (Four(low, upper) + rest);
    var s := "\\u" + Four(high, upper) + "\\u" + Four(low, upper) + rest;
    var t := Four(high, upper) + tail;
    assert s == "\\u" + t && s[0] == '\\' && s[1] == 'u' && s[2..] == t;
    FourReads(high, upper, tail);
    assert t[4] == '\\' && t[5] == 'u' && t[6..] == Four(low, upper) + rest && t[10..] == rest;
    FourReads(low, upper, rest);
    assert (high - 0xD800) * 0x400 + (low - 0xDC00) + 0x1_0000 == c as int;
  }

  // ---- what is refused inside a string ----

  /** A bare control character, a lone backslash, an unknown escape, and half a surrogate pair. */
  lemma RefusedChars(c: char, n: nat, upper: bool, rest: string)
    ensures c as int < 0x20 ==> ReadChar([c] + rest) == None
    ensures c as int >= 0x20 && c != '\\' ==> ReadChar([c] + rest) == Some((c, rest))
    ensures ReadChar("\\") == None
    ensures c !in {'"', '\\', '/', 'b', 'f', 'n', 'r', 't', 'u'} ==> ReadChar(['\\', c] + rest) == None
    ensures 0xDC00 <= n < 0xE000 ==> ReadChar("\\u" + Four(n, upper) + rest) == None
    ensures 0xD800 <= n < 0xDC00 && !(|rest| >= 2 && rest[0] == '\\' && rest[1] == 'u') ==>
      ReadChar("\\u" + Four(n, upper) + rest) == None
  {
    hide ReadUnicode, Four;
    assert ([c] + rest)[1..] == rest;
    if 0xDC00 <= n < 0xE000 || (0xD800 <= n < 0xDC00 && !(|rest| >= 2 && rest[0] == '\\' && rest[1] == 'u')) {
      HalfRefused(n, upper, rest);
    }
  }

  lemma HalfRefused(n: nat, upper: bool, rest: string)
    requires 0xD800 <= n < 0xE000
    requires n < 0xDC00 ==> !(|rest| >= 2 && rest[0] == '\\' && rest[1] == 'u')
    ensures ReadChar("\\u" + Four(n, upper) + rest) == None
  {
    hide Four, Hex4;
    var s := "\\u" + Four(n, upper) + rest;
    var t := Four(n, upper) + rest;
    assert s[0] == '\\' && s[1] == 'u' && s[2..] == t;
    FourReads(n, upper, rest);
    if |t| >= 6 { assert t[4] == rest[0] && t[5] == rest[1]; }
  }
}
