/** The dump of a flat JSON object: the exact text nlohmann::json::dump gives for an object
    whose members are strings, integers and nulls. Two facts about that text carry the
    audit chain: it can be read back, so different objects have different texts, and no
    object's text hides inside another one after its first character.
    A `char` stands for one byte of a std::string. Every writer takes the text that comes
    after what it writes. */
module FlatJson {
  import Decimal
  import Hex

  datatype Value = Str(text: string) | Int(number: int) | Null
  datatype Member = Member(key: string, value: Value)

  function EscapeChar(c: char): (s: string)
    ensures |s| > 0
  {
    if c == '\"' then "\\\""
    else if c == '\\' then "\\\\"
    else if c as int == 8 then "\\b"
    else if c as int == 9 then "\\t"
    else if c as int == 10 then "\\n"
    else if c as int == 12 then "\\f"
    else if c as int == 13 then "\\r"
    else if c as int < 32 then ['\\', 'u', '0', '0', Hex.HEX[c as int / 16], Hex.HEX[c as int % 16]]
    else [c]
  }

  /** The escapes of RFC 8259, section 7, as the dump uses them: the short ones where there is
      one, `\\u00` and two hex digits for the other control characters, and nothing else. */
  lemma EscapesMean(c: char)
    ensures EscapeChar('\"') == "\\\"" && EscapeChar('\\') == "\\\\"
    ensures EscapeChar('\n') == "\\n" && EscapeChar('\r') == "\\r" && EscapeChar('\t') == "\\t"
    ensures EscapeChar(8 as char) == "\\b" && EscapeChar(12 as char) == "\\f"
    ensures c as int >= 32 && c != '\"' && c != '\\' ==> EscapeChar(c) == [c]
    ensures c as int < 32 && c as int !in {8, 9, 10, 12, 13} ==>
              EscapeChar(c) == "\\u00" + ["0123456789abcdef"[c as int / 16], "0123456789abcdef"[c as int % 16]]
  {
  }

  /** The inside of a string literal and its closing quote. */
  function CharsThen(x: string, after: string): string {
    if x == [] then ['\"'] + after else EscapeChar(x[0]) + CharsThen(x[1..], after)
  }

  function QuotedThen(x: string, after: string): string {
    ['\"'] + CharsThen(x, after)
  }

  function ValueThen(v: Value, after: string): string {
    match v
    case Str(text) => QuotedThen(text, after)
    case Int(number) => Decimal.Text(number) + after
    case Null => "null" + after
  }

  function MemberThen(m: Member, after: string): string {
    QuotedThen(m.key, [':'] + ValueThen(m.value, after))
  }

  /** What follows a member: the closing brace, or a comma and the next member. */
  function Rest(ms: seq<Member>): string {
    if ms == [] then ['}'] else [','] + MemberThen(ms[0], Rest(ms[1..]))
  }

  function Text(ms: seq<Member>): string
    requires ms != []
  {
    ['{'] + MemberThen(ms[0], Rest(ms[1..]))
  }

  // ---- the text piece by piece -------------------------------------------------------

  function Escaped(x: string): string {
    if x == [] then [] else EscapeChar(x[0]) + Escaped(x[1..])
  }

  function ValueText(v: Value): string {
    match v
    case Str(text) => "\"" + Escaped(text) + "\""
    case Int(number) => Decimal.Text(number)
    case Null => "null"
  }

  /** A name and a value, a colon between them. */
  function MemberText(m: Member): string {
    "\"" + Escaped(m.key) + "\":" + ValueText(m.value)
  }

  /** The members with commas between them. */
  function Listed(ms: seq<Member>): string {
    if ms == [] then []
    else if |ms| == 1 then MemberText(ms[0])
    else MemberText(ms[0]) + "," + Listed(ms[1..])
  }

  lemma {:induction false} CharsThenIs(x: string, after: string)
    ensures CharsThen(x, after) == Escaped(x) + "\"" + after
  {
    if x == [] {
      assert Escaped(x) + "\"" + after == "\"" + after;
    } else {
      CharsThenIs(x[1..], after);
      assert EscapeChar(x[0]) + (Escaped(x[1..]) + "\"" + after) == Escaped(x) + "\"" + after;
    }
  }

  lemma ValueThenIs(v: Value, after: string)
    ensures ValueThen(v, after) == ValueText(v) + after
  {
    if v.Str? {
      CharsThenIs(v.text, after);
      assert "\"" + (Escaped(v.text) + "\"" + after) == "\"" + Escaped(v.text) + "\"" + after;
    }
  }

  lemma MemberThenIs(m: Member, after: string)
    ensures MemberThen(m, after) == MemberText(m) + after
  {
    hide ValueText, ValueThen, Escaped, CharsThen;
    ValueThenIs(m.value, after);
    CharsThenIs(m.key, [':'] + ValueThen(m.value, after));
    assert "\"" + (Escaped(m.key) + "\"" + (":" + (ValueText(m.value) + after)))
        == "\"" + Escaped(m.key) + "\":" + ValueText(m.value) + after;
  }

  lemma {:induction false} RestIs(ms: seq<Member>)
    ensures Rest(ms) == (if ms == [] then "" else "," + Listed(ms)) + "}"
  {
    hide MemberThen, MemberText;
    if ms != [] {
      RestIs(ms[1..]);
      MemberThenIs(ms[0], Rest(ms[1..]));
      if |ms| == 1 {
        assert "," + (MemberText(ms[0]) + "}") == "," + MemberText(ms[0]) + "}";
      } else {
        assert "," + (MemberText(ms[0]) + ("," + Listed(ms[1..]) + "}"))
            == "," + (MemberText(ms[0]) + "," + Listed(ms[1..])) + "}";
      }
    }
  }

  /** The dump: the members in their order, commas between them, braces around. */
  lemma TextIs(ms: seq<Member>)
    requires ms != []
    ensures Text(ms) == "{" + Listed(ms) + "}"
  {
    hide MemberThen, MemberText;
    RestIs(ms[1..]);
    MemberThenIs(ms[0], Rest(ms[1..]));
    if |ms| == 1 {
      assert "{" + (MemberText(ms[0]) + "}") == "{" + MemberText(ms[0]) + "}";
    } else {
      assert "{" + (MemberText(ms[0]) + ("," + Listed(ms[1..]) + "}"))
          == "{" + (MemberText(ms[0]) + "," + Listed(ms[1..])) + "}";
    }
  }

  // ---- reading the text back ---------------------------------------------------------

  function UnescapeChar(s: string): (r: (char, string))
    requires s != []
    ensures |r.1| < |s|
  {
    if s[0] != '\\' || |s| == 1 then (s[0], s[1..])
    else if s[1] == 'u' && |s| >= 6 then (Unhex(s[4], s[5]), s[6..])
    else (Unletter(s[1]), s[2..])
  }

  function Unletter(c: char): char {
    match c
    case 'b' => 8 as char
    case 't' => 9 as char
    case 'n' => 10 as char
    case 'f' => 12 as char
    case 'r' => 13 as char
    case _ => c
  }

  function Unhex(hi: char, lo: char): char {
    var h := if hi == '1' then 16 else 0;
    if '0' <= lo <= '9' then (h + (lo as int - '0' as int)) as char
    else if 'a' <= lo <= 'f' then (h + (lo as int - 'a' as int + 10)) as char
    else lo
  }

  function ReadChars(s: string): (r: (string, string))
    ensures |r.1| <= |s|
    decreases |s|
  {
    if s == [] then ([], [])
    else if s[0] == '\"' then ([], s[1..])
    else
      var (c, more) := UnescapeChar(s);
      var (x, after) := ReadChars(more);
      ([c] + x, after)
  }

  function ReadNumber(s: string): (r: (string, string))
    ensures |r.1| <= |s|
  {
    if s == [] || !Decimal.IsNumberChar(s[0]) then ([], s)
    else
      var (x, after) := ReadNumber(s[1..]);
      ([s[0]] + x, after)
  }

  function ReadValue(s: string): (r: (Value, string))
    ensures |r.1| <= |s|
  {
    if s == [] then (Null, [])
    else if s[0] == '\"' then
      var (x, after) := ReadChars(s[1..]);
      (Str(x), after)
    else if s[0] == 'n' then (Null, if |s| >= 4 then s[4..] else [])
    else
      var (x, after) := ReadNumber(s);
      (Int(Decimal.Parsed(x)), after)
  }

  function ReadMember(s: string): (r: (Member, string))
    ensures |r.1| <= |s|
  {
    if s == [] then (Member([], Null), [])
    else
      var (key, more) := ReadChars(s[1..]);
      var (value, after) := ReadValue(if more == [] then [] else more[1..]);
      (Member(key, value), after)
  }

  function ReadRest(s: string): seq<Member>
    decreases |s|
  {
    if s == [] || s[0] == '}' then []
    else
      var (m, after) := ReadMember(s[1..]);
      [m] + ReadRest(after)
  }

  function Read(s: string): seq<Member> {
    if s == [] then [] else ReadRest([','] + s[1..])
  }

  lemma UnescapeEscaped(c: char, after: string)
    ensures UnescapeChar(EscapeChar(c) + after) == (c, after)
    ensures (EscapeChar(c) + after)[0] != '\"'
  {
    var e := EscapeChar(c);
    var s := e + after;
    assert s[..|e|] == e && s[|e|..] == after;
    if |e| == 6 {
      var n := c as int;
      assert s[4] == Hex.HEX[n / 16] && s[5] == Hex.HEX[n % 16];
      UnhexHex(n);
    }
  }

  lemma UnhexHex(n: nat)
    requires n < 32
    ensures Unhex(Hex.HEX[n / 16], Hex.HEX[n % 16]) == n as char
  {
    assert Hex.HEX[0] == '0' && Hex.HEX[1] == '1';
  }

  lemma {:induction false} CharsRead(x: string, after: string)
    ensures ReadChars(CharsThen(x, after)) == (x, after)
  {
    if x == [] {
      assert CharsThen(x, after)[1..] == after;
    } else {
      var more := CharsThen(x[1..], after);
      UnescapeEscaped(x[0], more);
      CharsRead(x[1..], after);
      assert [x[0]] + x[1..] == x;
    }
  }

  lemma {:induction false} NumberRead(x: string, after: string)
    requires forall c | c in x :: Decimal.IsNumberChar(c)
    requires after != [] && !Decimal.IsNumberChar(after[0])
    ensures ReadNumber(x + after) == (x, after)
  {
    if x == [] {
      assert x + after == after;
    } else {
      NumberRead(x[1..], after);
      assert (x + after)[1..] == x[1..] + after;
      assert (x + after)[0] == x[0] && x[0] in x;
      assert [x[0]] + x[1..] == x;
    }
  }

  predicate Closes(s: string) {
    s != [] && (s[0] == ',' || s[0] == '}')
  }

  lemma ValueRead(v: Value, after: string)
    requires Closes(after)
    ensures ReadValue(ValueThen(v, after)) == (v, after)
  {
    var s := ValueThen(v, after);
    match v
    case Str(x) =>
      CharsRead(x, after);
      assert s[1..] == CharsThen(x, after);
    case Int(n) =>
      Decimal.TextIsNumber(n);
      assert s[0] == Decimal.Text(n)[0] && Decimal.Text(n)[0] in Decimal.Text(n);
      NumberRead(Decimal.Text(n), after);
      Decimal.ParsedText(n);
    case Null =>
      assert s[0] == 'n' && s[4..] == after;
  }

  lemma MemberRead(m: Member, after: string)
    requires Closes(after)
    ensures ReadMember(MemberThen(m, after)) == (m, after)
  {
    var value := ValueThen(m.value, after);
    CharsRead(m.key, [':'] + value);
    assert MemberThen(m, after)[1..] == CharsThen(m.key, [':'] + value);
    assert ([':'] + value)[1..] == value;
    ValueRead(m.value, after);
  }

  lemma {:induction false} RestRead(ms: seq<Member>)
    ensures Closes(Rest(ms)) && ReadRest(Rest(ms)) == ms
  {
    if ms != [] {
      RestRead(ms[1..]);
      RestStep(ms[0], Rest(ms[1..]));
      assert [ms[0]] + ms[1..] == ms;
    }
  }

  lemma RestStep(m: Member, after: string)
    requires Closes(after)
    ensures ReadRest([','] + MemberThen(m, after)) == [m] + ReadRest(after)
  {
    MemberRead(m, after);
    assert ([','] + MemberThen(m, after))[1..] == MemberThen(m, after);
  }

  /** The text says exactly which members the object has, with which values, in order. */
  lemma TextRead(ms: seq<Member>)
    requires ms != []
    ensures Read(Text(ms)) == ms
  {
    RestRead(ms);
    assert Text(ms)[1..] == Rest(ms)[1..];
    assert [','] + Text(ms)[1..] == Rest(ms);
  }

  // ---- no object inside another ------------------------------------------------------

  predicate Ends(c: char) {
    c == ',' || c == '}' || c == ':'
  }

  /** Wherever a brace is followed by a quote, that quote closes a string. */
  ghost predicate Guarded(s: string) {
    forall p {:trigger s[p]} | 0 <= p && p + 2 < |s| && s[p] == '{' && s[p + 1] == '\"' :: Ends(s[p + 2])
  }

  lemma GuardedCons(c: char, s: string)
    requires Guarded(s)
    requires c == '{' && |s| > 1 && s[0] == '\"' ==> Ends(s[1])
    ensures Guarded([c] + s)
  {
    var t := [c] + s;
    forall p | 0 <= p && p + 2 < |t| && t[p] == '{' && t[p + 1] == '\"' ensures Ends(t[p + 2]) {
      if p > 0 {
        assert s[p - 1] == t[p] && s[p] == t[p + 1] && s[p + 1] == t[p + 2];
      }
    }
  }

  lemma {:induction false} GuardedPrefix(x: string, s: string)
    requires Guarded(s) && '{' !in x
    ensures Guarded(x + s)
  {
    if x == [] {
      assert x + s == s;
    } else {
      GuardedPrefix(x[1..], s);
      GuardedCons(x[0], x[1..] + s);
      assert x + s == [x[0]] + (x[1..] + s);
    }
  }

  lemma {:induction false} GuardedChars(x: string, after: string)
    requires Guarded(after) && after != [] && Ends(after[0])
    ensures Guarded(CharsThen(x, after))
  {
    hide Guarded;
    if x == [] {
      GuardedCons('\"', after);
    } else {
      GuardedChars(x[1..], after);
      var more := CharsThen(x[1..], after);
      if x[0] == '{' {
        CharsHead(x[1..], after);
        GuardedCons('{', more);
      } else {
        GuardedPrefix(EscapeChar(x[0]), more);
      }
    }
  }

  /** Only the closing quote of a string stands bare. */
  lemma CharsHead(x: string, after: string)
    requires after != []
    ensures |CharsThen(x, after)| > 1
    ensures CharsThen(x, after)[0] == '\"' ==> CharsThen(x, after)[1] == after[0]
  {
    if x != [] {
      UnescapeEscaped(x[0], CharsThen(x[1..], after));
      CharsNonEmpty(x[1..], after);
    }
  }

  lemma CharsNonEmpty(x: string, after: string)
    ensures CharsThen(x, after) != []
  {
  }

  lemma GuardedMember(m: Member, after: string)
    requires Guarded(after) && Closes(after)
    ensures Guarded(MemberThen(m, after))
  {
    var value := ValueThen(m.value, after);
    match m.value {
      case Str(x) =>
        GuardedChars(x, after);
        GuardedCons('\"', CharsThen(x, after));
      case Int(n) =>
        Decimal.TextIsNumber(n);
        GuardedPrefix(Decimal.Text(n), after);
      case Null =>
        GuardedPrefix("null", after);
    }
    GuardedCons(':', value);
    GuardedChars(m.key, [':'] + value);
    GuardedCons('\"', CharsThen(m.key, [':'] + value));
  }

  lemma {:induction false} GuardedRest(ms: seq<Member>)
    ensures Guarded(Rest(ms)) && Closes(Rest(ms))
  {
    if ms != [] {
      GuardedRest(ms[1..]);
      GuardedMember(ms[0], Rest(ms[1..]));
      GuardedCons(',', MemberThen(ms[0], Rest(ms[1..])));
    }
  }

  /** The first key starts with an ordinary letter. */
  predicate PlainStart(ms: seq<Member>) {
    ms != [] && ms[0].key != [] && 'a' <= ms[0].key[0] <= 'z'
  }

  lemma TextStart(ms: seq<Member>)
    requires PlainStart(ms)
    ensures |Text(ms)| > 2 && Text(ms)[0] == '{' && Text(ms)[1] == '\"' && 'a' <= Text(ms)[2] <= 'z'
  {
    var k := ms[0].key;
    var after := [':'] + ValueThen(ms[0].value, Rest(ms[1..]));
    assert CharsThen(k, after) == [k[0]] + CharsThen(k[1..], after);
    assert Text(ms) == ['{'] + (['\"'] + CharsThen(k, after));
  }

  lemma NotInside(p: string, q: string, ms: seq<Member>, ns: seq<Member>)
    requires PlainStart(ms) && PlainStart(ns)
    requires p + Text(ms) == q + Text(ns)
    ensures |q| <= |p|
  {
    var body := MemberThen(ms[0], Rest(ms[1..]));
    GuardedRest(ms[1..]);
    GuardedMember(ms[0], Rest(ms[1..]));
    TextStart(ns);
    StartsInside(p, body, q, Text(ns));
  }

  lemma StartsInside(p: string, body: string, q: string, text: string)
    requires Guarded(body)
    requires |text| > 2 && text[0] == '{' && text[1] == '\"' && 'a' <= text[2] <= 'z'
    requires p + (['{'] + body) == q + text
    ensures |q| <= |p|
  {
    var s := p + (['{'] + body);
    assert s[|q|] == text[0] && s[|q| + 1] == text[1] && s[|q| + 2] == text[2];
    assert forall k {:trigger body[k]} | 0 <= k < |body| :: body[k] == s[|p| + 1 + k];
    assert |p| < |q| ==> !(s[|q|] == '{' && s[|q| + 1] == '\"') || Ends(s[|q| + 2]);
  }

  /** Bytes put in front of an object's text can be told from the text itself: the same
      joined string always means the same bytes and the same object. */
  lemma FramingOnce(p: string, q: string, ms: seq<Member>, ns: seq<Member>)
    requires PlainStart(ms) && PlainStart(ns)
    requires p + Text(ms) == q + Text(ns)
    ensures p == q && ms == ns
  {
    NotInside(p, q, ms, ns);
    NotInside(q, p, ns, ms);
    var s := p + Text(ms);
    assert s[..|p|] == p && s[..|q|] == q;
    assert s[|p|..] == Text(ms) && s[|q|..] == Text(ns);
    TextRead(ms);
    TextRead(ns);
  }
}
