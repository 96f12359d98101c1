/** The JSON text of a wire message: what `serde_json` writes for the three-field struct of `wire.rs`,
    and a reader for objects with those fields. String literals follow section 7 of RFC 8259. */
module Json {
  import opened Basics
  import Utf8

  datatype Kind = Chat | System | Ping | Pong

  datatype WireMessage = WireMessage(kind: Kind, name: string, text: string)

  function ChatMessage(name: string, text: string): WireMessage { WireMessage(Chat, name, text) }
  function SystemMessage(text: string): WireMessage { WireMessage(System, "", text) }

  // ---- writing ----

  function Tag(kind: Kind): string {
    match kind
    case Chat => "Chat"
    case System => "System"
    case Ping => "Ping"
    case Pong => "Pong"
  }

  function HexDigit(n: int): char
    requires 0 <= n < 16
  {
    if n < 10 then ('0' as int + n) as char else ('a' as int + n - 10) as char
  }

  function EscapeChar(c: char): string {
    if c == '"' then "\\\""
    else if c == '\\' then "\\\\"
    else if c as int == 0x08 then "\\b"
    else if c as int == 0x0C then "\\f"
    else if c == '\n' then "\\n"
    else if c == '\r' then "\\r"
    else if c == '\t' then "\\t"
    else if c as int < 0x20 then ['\\', 'u', '0', '0', HexDigit(c as int / 16), HexDigit(c as int % 16)]
    else [c]
  }

  function Escape(s: string): string {
    if s == "" then "" else EscapeChar(s[0]) + Escape(s[1..])
  }

  function Quote(s: string): string { ['"'] + Escape(s) + ['"'] }

  function Member(key: string, value: string): string { Quote(key) + [':'] + Quote(value) }

  /** The members that follow the first one, and the closing brace. */
  function PrintMore(members: seq<(string, string)>): string {
    if members == [] then ['}']
    else [','] + (Member(members[0].0, members[0].1) + PrintMore(members[1..]))
  }

  function Print(m: WireMessage): string {
    ['{'] + (Member("type", Tag(m.kind)) + PrintMore([("name", m.name), ("text", m.text)]))
  }

  // ---- reading ----

  predicate IsSpace(c: char) { c == ' ' || c == '\t' || c == '\n' || c == '\r' }

  function SkipSpace(s: string): (rest: string)
    ensures |rest| <= |s|
  {
    if s != "" && IsSpace(s[0]) then SkipSpace(s[1..]) else s
  }

  function HexValue(c: char): Option<nat> {
    if '0' <= c <= '9' then Some(c as int - '0' as int)
    else if 'a' <= c <= 'f' then Some(c as int - 'a' as int + 10)
    else if 'A' <= c <= 'F' then Some(c as int - 'A' as int + 10)
    else None
  }

  /** The value of the four hex digits at the head of `s`. */
  function Hex4(s: string): (r: Option<nat>)
    ensures r.Some? ==> |s| >= 4 && r.value < 0x1_0000
  {
    if |s| < 4 then None
    else match (HexValue(s[0]), HexValue(s[1]), HexValue(s[2]), HexValue(s[3]))
      case (Some(a), Some(b), Some(c), Some(d)) =>
        if a < 16 && b < 16 && c < 16 && d < 16 then Some(((a * 16 + b) * 16 + c) * 16 + d) else None
      case _ => None
  }

  /** What follows a `\u`: one scalar value, or a high and a low surrogate that together make one. */
  function ReadUnicode(s: string): (r: Option<(char, string)>)
    ensures r.Some? ==> |r.value.1| < |s|
  {
    match Hex4(s)
    case None => None
    case Some(n) =>
      if n < 0xD800 || n >= 0xE000 then Some((n as char, s[4..]))
      else if n >= 0xDC00 || |s| < 10 || s[4] != '\\' || s[5] != 'u' then None
      else match Hex4(s[6..])
        case None => None
        case Some(low) =>
          if 0xDC00 <= low < 0xE000 then
            Some((((n - 0xD800) * 0x400 + (low - 0xDC00) + 0x1_0000) as char, s[10..]))
          else None
  }

  /** One character of a string literal, written plainly or escaped. */
  function ReadChar(s: string): (r: Option<(char, string)>)
    requires s != ""
    ensures r.Some? ==> |r.value.1| < |s|
  {
    if s[0] as int < 0x20 then None
    else if s[0] != '\\' then Some((s[0], s[1..]))
    else if |s| < 2 then None
    else match s[1]
      case '"' => Some(('"', s[2..]))
      case '\\' => Some(('\\', s[2..]))
      case '/' => Some(('/', s[2..]))
      case 'b' => Some((8 as char, s[2..]))
      case 'f' => Some((12 as char, s[2..]))
      case 'n' => Some(('\n', s[2..]))
      case 'r' => Some(('\r', s[2..]))
      case 't' => Some(('\t', s[2..]))
      case 'u' => ReadUnicode(s[2..])
      case _ => None
  }

  /** The rest of a string literal after its opening quote: its content and what follows it. */
  function ReadTail(s: string): (r: Option<(string, string)>)
    ensures r.Some? ==> |r.value.1| < |s|
    decreases |s|
  {
    if s == "" then None
    else if s[0] == '"' then Some(("", s[1..]))
    else match ReadChar(s)
      case None => None
      case Some((c, s')) =>
        match ReadTail(s')
        case None => None
        case Some((t, rest)) => Some(([c] + t, rest))
  }

  function ReadString(s: string): (r: Option<(string, string)>)
    ensures r.Some? ==> |r.value.1| < |s|
  {
    if s == "" || s[0] != '"' then None else ReadTail(s[1..])
  }

  datatype Fields = Fields(kind: Option<Kind>, name: Option<string>, text: Option<string>)

  /** Stores one member. A repeated member or an unknown type tag is an error. */
  function SetField(f: Fields, key: string, value: string): Option<Fields> {
    if key == "type" && f.kind.None? then
      if value == "Chat" then Some(f.(kind := Some(Chat)))
      else if value == "System" then Some(f.(kind := Some(System)))
      else if value == "Ping" then Some(f.(kind := Some(Ping)))
      else if value == "Pong" then Some(f.(kind := Some(Pong)))
      else None
    else if key == "name" && f.name.None? then Some(f.(name := Some(value)))
    else if key == "text" && f.text.None? then Some(f.(text := Some(value)))
    else None
  }

  function ReadMember(s: string): (r: Option<(string, string, string)>)
    ensures r.Some? ==> |r.value.2| < |s|
  {
    match ReadString(s)
    case None => None
    case Some((key, s1)) =>
      var s2 := SkipSpace(s1);
      if s2 == "" || s2[0] != ':' then None
      else match ReadString(SkipSpace(s2[1..]))
        case None => None
        case Some((value, rest)) => Some((key, value, SkipSpace(rest)))
  }

  /** The members after `{` or after an earlier member, up to and including the `}`. */
  function ReadMembers(s: string, f: Fields, first: bool): Option<(Fields, string)>
    decreases |s|
  {
    if s == "" then None
    else if s[0] == '}' then Some((f, s[1..]))
    else if !first && s[0] != ',' then None
    else match ReadMember(if first then s else SkipSpace(s[1..]))
      case None => None
      case Some((key, value, rest)) =>
        match SetField(f, key, value)
        case None => None
        case Some(f') => ReadMembers(rest, f', false)
  }

  /** `type` must be present; `name` and `text` default to the empty string. */
  function Parse(s: string): Option<WireMessage> {
    var s := SkipSpace(s);
    if s == "" || s[0] != '{' then None
    else match ReadMembers(SkipSpace(s[1..]), Fields(None, None, None), true)
      case None => None
      case Some((f, rest)) =>
        if SkipSpace(rest) != "" || f.kind.None? then None
        else Some(WireMessage(f.kind.value,
                              if f.name.Some? then f.name.value else "",
                              if f.text.Some? then f.text.value else ""))
  }

  // ---- reading undoes writing ----

  lemma EscapedCharReads(c: char, rest: string)
    ensures (EscapeChar(c) + rest)[0] != '"'
    ensures ReadChar(EscapeChar(c) + rest) == Some((c, rest))
  {
    var e, n := EscapeChar(c), c as int;
    var s := e + rest;
    assert s[|e|..] == rest;
    assert s[0] == e[0];
    if |e| >= 2 { assert s[1] == e[1]; }
    if |e| == 6 {
      assert s[2..][0] == e[2] && s[2..][1] == e[3] && s[2..][2] == e[4] && s[2..][3] == e[5];
      assert HexValue(HexDigit(n / 16)) == Some(n / 16) && HexValue(HexDigit(n % 16)) == Some(n % 16);
      assert s[2..][4..] == rest;
    }
  }

  lemma {:induction false} EscapedTailReads(t: string, rest: string)
    ensures ReadTail(Escape(t) + ['"'] + rest) == Some((t, rest))
  {
    hide EscapeChar, ReadChar;
    if t == "" {
      assert Escape(t) + ['"'] + rest == ['"'] + rest;
      assert (['"'] + rest)[1..] == rest;
    } else {
      var more := Escape(t[1..]) + ['"'] + rest;
      assert Escape(t) + ['"'] + rest == EscapeChar(t[0]) + more;
      EscapedCharReads(t[0], more);
      EscapedTailReads(t[1..], rest);
      assert t == [t[0]] + t[1..];
    }
  }

  lemma QuotedReads(t: string, rest: string)
    ensures ReadString(Quote(t) + rest) == Some((t, rest))
  {
    EscapedTailReads(t, rest);
    assert (Quote(t) + rest)[1..] == Escape(t) + ['"'] + rest;
  }

  lemma MemberReads(key: string, value: string, rest: string)
    requires rest != "" && !IsSpace(rest[0])
    ensures ReadMember(Member(key, value) + rest) == Some((key, value, rest))
    ensures (Member(key, value) + rest)[0] == '"'
  {
    hide Escape, ReadString;
    var after := [':'] + (Quote(value) + rest);
    assert Member(key, value) + rest == Quote(key) + after;
    QuotedReads(key, after);
    assert after[1..] == Quote(value) + rest;
    QuotedReads(value, rest);
  }

  /** One printed member is read, stored, and reading goes on behind it. */
  lemma MembersStep(key: string, value: string, rest: string, f: Fields, first: bool)
    requires rest != "" && !IsSpace(rest[0]) && SetField(f, key, value).Some?
    ensures ReadMembers((if first then "" else [',']) + (Member(key, value) + rest), f, first)
         == ReadMembers(rest, SetField(f, key, value).value, false)
  {
    var member := Member(key, value) + rest;
    MemberReads(key, value, rest);
    assert "" + member == member;
    assert ([','] + member)[1..] == member;
    assert SkipSpace(member) == member;
  }

  lemma TagStored(kind: Kind)
    ensures SetField(Fields(None, None, None), "type", Tag(kind)) == Some(Fields(Some(kind), None, None))
  {
  }

  lemma MembersRead(m: WireMessage, name: (string, string), text: (string, string))
    requires name == ("name", m.name) && text == ("text", m.text)
    ensures ReadMembers(Member("type", Tag(m.kind)) + PrintMore([name, text]), Fields(None, None, None), true)
         == Some((Fields(Some(m.kind), Some(m.name), Some(m.text)), ""))
  {
    hide Member, ReadMembers, Tag;
    var f0, f1 := Fields(None, None, None), Fields(Some(m.kind), None, None);
    var f2 := f1.(name := Some(m.name));
    TagStored(m.kind);
    assert [name, text][1..] == [text] && [text][1..] == [];
    var body := Member("type", Tag(m.kind)) + PrintMore([name, text]);
    assert "" + body == body;
    MembersStep("type", Tag(m.kind), PrintMore([name, text]), f0, true);
    MembersStep("name", m.name, PrintMore([text]), f1, false);
    MembersStep("text", m.text, PrintMore([]), f2, false);
    NoMoreMembers(f2.(text := Some(m.text)));
  }

  lemma NoMoreMembers(f: Fields)
    ensures ReadMembers(PrintMore([]), f, false) == Some((f, ""))
  {
    assert PrintMore([]) == ['}'] && ['}'][1..] == "";
  }

  lemma ObjectParses(body: string, kind: Kind, name: string, text: string)
    requires body != "" && !IsSpace(body[0])
    requires ReadMembers(body, Fields(None, None, None), true) == Some((Fields(Some(kind), Some(name), Some(text)), ""))
    ensures Parse(['{'] + body) == Some(WireMessage(kind, name, text))
  {
    assert (['{'] + body)[1..] == body;
    assert SkipSpace(['{'] + body) == ['{'] + body && SkipSpace(body) == body;
  }

  /** For every message, including names and texts with quotes, backslashes, control characters and
      non-ASCII text, the reader recovers exactly the message that was printed. */
  lemma RoundTrip(m: WireMessage)
    ensures Parse(Print(m)) == Some(m)
  {
    var name, text := ("name", m.name), ("text", m.text);
    MembersRead(m, name, text);
    MemberReads("type", Tag(m.kind), PrintMore([name, text]));
    ObjectParses(Member("type", Tag(m.kind)) + PrintMore([name, text]), m.kind, m.name, m.text);
  }

  // ---- size ----

  lemma {:induction false} AsciiSize(s: string)
    requires forall i :: 0 <= i < |s| ==> s[i] as int < 0x80
    ensures |Utf8.Encode(s)| == |s|
  {
    if s != "" { AsciiSize(s[1..]); }
  }

  /** Escaping never shortens a string and makes each byte at most six. */
  lemma {:induction false} EscapedSize(s: string)
    ensures |Utf8.Encode(s)| <= |Utf8.Encode(Escape(s))| <= 6 * |Utf8.Encode(s)|
  {
    if s != "" {
      hide EscapeChar, Utf8.EncodeChar;
      var c := s[0];
      Utf8.EncodeAppend(EscapeChar(c), Escape(s[1..]));
      Utf8.EncodeAppend([c], s[1..]);
      assert [c] + s[1..] == s;
      EscapedSize(s[1..]);
      EscapedCharSize(c);
    }
  }

  lemma EscapedCharSize(c: char)
    ensures |Utf8.Encode([c])| <= |Utf8.Encode(EscapeChar(c))| <= 6 * |Utf8.Encode([c])|
  {
    assert Utf8.Encode([c]) == Utf8.EncodeChar(c) + Utf8.Encode([c][1..]);
    if c as int < 0x20 || c == '"' || c == '\\' {
      AsciiSize(EscapeChar(c));
    }
  }

  lemma MemberSize(key: string, value: string)
    ensures |Utf8.Encode(Member(key, value))| == 5 + |Utf8.Encode(Escape(key))| + |Utf8.Encode(Escape(value))|
  {
    AsciiSize(['"']);
    AsciiSize([':']);
    Utf8.EncodeAppend(['"'] + Escape(key), ['"']);
    Utf8.EncodeAppend(['"'], Escape(key));
    Utf8.EncodeAppend(['"'] + Escape(value), ['"']);
    Utf8.EncodeAppend(['"'], Escape(value));
    Utf8.EncodeAppend(Quote(key) + [':'], Quote(value));
    Utf8.EncodeAppend(Quote(key), [':']);
  }

  lemma {:induction false} PlainSize(s: string)
    requires forall i :: 0 <= i < |s| ==> 0x20 <= s[i] as int < 0x80 && s[i] != '"' && s[i] != '\\'
    ensures Escape(s) == s && |Utf8.Encode(s)| == |s|
  {
    AsciiSize(s);
    if s != "" {
      PlainSize(s[1..]);
      assert s == [s[0]] + s[1..];
    }
  }

  lemma MoreSize(key: string, value: string, more: seq<(string, string)>)
    ensures |Utf8.Encode(PrintMore([(key, value)] + more))|
         == 6 + |Utf8.Encode(Escape(key))| + |Utf8.Encode(Escape(value))| + |Utf8.Encode(PrintMore(more))|
  {
    assert ([(key, value)] + more)[1..] == more;
    AsciiSize([',']);
    MemberSize(key, value);
    Utf8.EncodeAppend([','], Member(key, value) + PrintMore(more));
    Utf8.EncodeAppend(Member(key, value), PrintMore(more));
  }

  /** The printed size is the escaped name and text plus 31 bytes and the type tag. */
  lemma PrintedSize(m: WireMessage)
    ensures |Utf8.Encode(Print(m))|
         == 31 + |Tag(m.kind)| + |Utf8.Encode(Escape(m.name))| + |Utf8.Encode(Escape(m.text))|
  {
    hide Escape;
    var name, text := ("name", m.name), ("text", m.text);
    var head := Member("type", Tag(m.kind));
    AsciiSize(['{']);
    AsciiSize(['}']);
    Utf8.EncodeAppend(['{'], head + PrintMore([name, text]));
    Utf8.EncodeAppend(head, PrintMore([name, text]));
    MemberSize("type", Tag(m.kind));
    MoreSize("name", m.name, [text]);
    MoreSize("text", m.text, []);
    assert [name] + [text] == [name, text] && [text] + [] == [text];
    LiteralSizes(m.kind);
  }

  lemma LiteralSizes(kind: Kind)
    ensures |Utf8.Encode(Escape("type"))| == |Utf8.Encode(Escape("name"))| == |Utf8.Encode(Escape("text"))| == 4
    ensures |Utf8.Encode(Escape(Tag(kind)))| == |Tag(kind)|
  {
    hide Escape, EscapeChar, Utf8.Encode;
    PlainSize("type");
    PlainSize("name");
    PlainSize("text");
    TagSize(kind);
  }

  lemma TagSize(kind: Kind)
    ensures |Utf8.Encode(Escape(Tag(kind)))| == |Tag(kind)|
  {
    hide Escape, EscapeChar, Utf8.Encode;
    PlainSize(Tag(kind));
  }
}
