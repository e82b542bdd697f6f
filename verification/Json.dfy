/** Compact JSON printing as `json.dumps(value, ensure_ascii=False, sort_keys=True,
    separators=(",", ":"))` followed by the markup guard of `_compact_untrusted_json`
    (src/legal_chatbot/chat/prompt.py), and a reader for it after RFC 8259. */
module Json {
  import opened Wrappers

  datatype Field = Field(name: string, value: Value)

  datatype Value =
    | Null
    | Number(n: nat)
    | Text(text: string)
    | List(items: seq<Value>)
    | Object(fields: seq<Field>)

  // ----- printing -----

  function DigitChar(d: nat): char
    requires d < 10
  {
    "0123456789"[d]
  }

  function HexChar(d: nat): char
    requires d < 16
  {
    "0123456789abcdef"[d]
  }

  function PrintNumber(n: nat): string {
    if n < 10 then [DigitChar(n)] else PrintNumber(n / 10) + [DigitChar(n % 10)]
  }

  /** The two-character escapes of section 7 of RFC 8259 that the printer uses. */
  function ShortCode(c: char): Option<char> {
    match c
    case '"' => Some('"')
    case '\\' => Some('\\')
    case '\n' => Some('n')
    case '\r' => Some('r')
    case '\t' => Some('t')
    case '\U{0008}' => Some('b')
    case '\U{000C}' => Some('f')
    case _ => None
  }

  function LongEscape(c: char): string
    requires c < ' '
  {
    "\\u00" + [HexChar(c as nat / 16), HexChar(c as nat % 16)]
  }

  /** Quotation mark, reverse solidus and controls are escaped, everything else stands. */
  function EscapedChar(c: char): string {
    match ShortCode(c)
    case Some(code) => ['\\', code]
    case None => if c < ' ' then LongEscape(c) else [c]
  }

  function PrintChars(s: string): string {
    if s == "" then "" else EscapedChar(s[0]) + PrintChars(s[1..])
  }

  function PrintText(s: string): string {
    "\"" + PrintChars(s) + "\""
  }

  function Print(v: Value): string {
    match v
    case Null => "null"
    case Number(n) => PrintNumber(n)
    case Text(text) => PrintText(text)
    case List(items) => "[" + PrintItems(items) + "]"
    case Object(fields) => "{" + PrintFields(fields) + "}"
  }

  function PrintItems(items: seq<Value>): string {
    if items == [] then ""
    else if |items| == 1 then Print(items[0])
    else Print(items[0]) + "," + PrintItems(items[1..])
  }

  function PrintField(f: Field): string {
    PrintText(f.name) + ":" + Print(f.value)
  }

  function PrintFields(fields: seq<Field>): string {
    if fields == [] then ""
    else if |fields| == 1 then PrintField(fields[0])
    else PrintField(fields[0]) + "," + PrintFields(fields[1..])
  }

  // ----- the markup guard -----

  predicate IsMarkup(c: char) {
    c == '<' || c == '>' || c == '&'
  }

  function GuardedChar(c: char): string {
    if c == '<' then "\\u003c" else if c == '>' then "\\u003e" else if c == '&' then "\\u0026" else [c]
  }

  /** The three replacements, in one pass. */
  function Guard(t: string): string {
    if t == "" then "" else GuardedChar(t[0]) + Guard(t[1..])
  }

  /** `t.replace(c, by)` */
  function Replace(t: string, c: char, with: string): string {
    if t == "" then "" else (if t[0] == c then with else [t[0]]) + Replace(t[1..], c, with)
  }

  lemma {:induction false} ReplaceConcat(a: string, b: string, c: char, with: string)
    ensures Replace(a + b, c, with) == Replace(a, c, with) + Replace(b, c, with)
  {
    if a == "" {
      assert a + b == b;
    } else {
      assert (a + b)[0] == a[0] && (a + b)[1..] == a[1..] + b;
      ReplaceConcat(a[1..], b, c, with);
    }
  }

  lemma {:induction false} ReplaceNothing(t: string, c: char, with: string)
    requires forall i :: 0 <= i < |t| ==> t[i] != c
    ensures Replace(t, c, with) == t
  {
    if t != "" {
      ReplaceNothing(t[1..], c, with);
    }
  }

  /** t.replace("<", "\\u003c").replace(">", "\\u003e").replace("&", "\\u0026") */
  function Replaced(t: string): string {
    Replace(Replace(Replace(t, '<', "\\u003c"), '>', "\\u003e"), '&', "\\u0026")
  }

  lemma ReplaceOne(c: char, with: string)
    ensures Replace([c], c, with) == with
  {
    assert Replace([c][1..], c, with) == "";
  }

  lemma ReplacedChar(c: char)
    ensures Replaced([c]) == GuardedChar(c)
  {
    hide Replace;
    if c == '<' {
      ReplaceOne('<', "\\u003c");
      ReplaceNothing("\\u003c", '>', "\\u003e");
      ReplaceNothing("\\u003c", '&', "\\u0026");
    } else if c == '>' {
      ReplaceNothing([c], '<', "\\u003c");
      ReplaceOne('>', "\\u003e");
      ReplaceNothing("\\u003e", '&', "\\u0026");
    } else if c == '&' {
      ReplaceNothing([c], '<', "\\u003c");
      ReplaceNothing([c], '>', "\\u003e");
      ReplaceOne('&', "\\u0026");
    } else {
      ReplaceNothing([c], '<', "\\u003c");
      ReplaceNothing([c], '>', "\\u003e");
      ReplaceNothing([c], '&', "\\u0026");
    }
  }

  /** No replacement touches what another one wrote: the successive replacements of the
      whole text are the guard of each of its characters. */
  lemma {:induction false} GuardIsTheReplacements(t: string)
    ensures Guard(t) == Replaced(t)
  {
    if t != "" {
      var head, rest := [t[0]], t[1..];
      assert t == head + rest;
      hide Replace;
      ReplaceConcat(head, rest, '<', "\\u003c");
      ReplaceConcat(Replace(head, '<', "\\u003c"), Replace(rest, '<', "\\u003c"), '>', "\\u003e");
      ReplaceConcat(Replace(Replace(head, '<', "\\u003c"), '>', "\\u003e"), Replace(Replace(rest, '<', "\\u003c"), '>', "\\u003e"), '&', "\\u0026");
      ReplacedChar(t[0]);
      GuardIsTheReplacements(rest);
    } else {
      assert Replaced("") == "";
    }
  }

  /** _compact_untrusted_json */
  function Compact(v: Value): string {
    Guard(Print(v))
  }

  /** Escaping and guarding make a text at most six times as long, each. */
  lemma {:induction false} GuardAtMost(t: string)
    ensures |Guard(t)| <= 6 * |t|
  {
    if t != "" {
      GuardAtMost(t[1..]);
    }
  }

  lemma {:induction false} PrintTextAtMost(s: string)
    ensures |PrintText(s)| <= 6 * |s| + 2
  {
    if s != "" {
      PrintTextAtMost(s[1..]);
    }
  }

  predicate NoMarkup(t: string) {
    forall i :: 0 <= i < |t| ==> !IsMarkup(t[i])
  }

  /** The guard leaves no character that could open or close a delimiter. */
  lemma {:induction false} GuardedHasNoMarkup(t: string)
    ensures NoMarkup(Guard(t))
  {
    if t != "" {
      GuardedHasNoMarkup(t[1..]);
      var head, rest := GuardedChar(t[0]), Guard(t[1..]);
      assert forall i :: 0 <= i < |head| ==> !IsMarkup(head[i]);
      assert forall i :: 0 <= i < |Guard(t)| ==> Guard(t)[i] == if i < |head| then head[i] else rest[i - |head|];
    }
  }

  lemma {:induction false} GuardConcat(a: string, b: string)
    ensures Guard(a + b) == Guard(a) + Guard(b)
  {
    if a == "" {
      assert a + b == b;
    } else {
      assert (a + b)[1..] == a[1..] + b;
      GuardConcat(a[1..], b);
      assert GuardedChar(a[0]) + (Guard(a[1..]) + Guard(b)) == (GuardedChar(a[0]) + Guard(a[1..])) + Guard(b);
    }
  }

  lemma {:induction false} GuardNothing(t: string)
    requires NoMarkup(t)
    ensures Guard(t) == t
  {
    if t != "" {
      assert NoMarkup(t[1..]);
      GuardNothing(t[1..]);
      assert t == [t[0]] + t[1..];
    }
  }

  // ----- reading -----

  predicate IsDigit(c: char) {
    '0' <= c <= '9'
  }

  function DigitValue(c: char): nat
    requires IsDigit(c)
  {
    c as nat - '0' as nat
  }

  function HexValue(c: char): Option<nat> {
    if '0' <= c <= '9' then Some(c as nat - '0' as nat)
    else if 'a' <= c <= 'f' then Some(c as nat - 'a' as nat + 10)
    else if 'A' <= c <= 'F' then Some(c as nat - 'A' as nat + 10)
    else None
  }

  /** Four hexadecimal digits naming a character that is not a surrogate. */
  function HexPoint(t: string): Option<char>
    requires |t| >= 4
  {
    match (HexValue(t[0]), HexValue(t[1]), HexValue(t[2]), HexValue(t[3]))
    case (Some(a), Some(b), Some(c), Some(d)) =>
      var point: int := 4096 * a + 256 * b + 16 * c + d;
      if 0 <= point < 0xD800 then Some(point as char) else None
    case _ => None
  }

  /** The character a two-character escape stands for. */
  function CodedChar(code: char): Option<char> {
    match code
    case '"' => Some('"')
    case '\\' => Some('\\')
    case '/' => Some('/')
    case 'n' => Some('\n')
    case 'r' => Some('\r')
    case 't' => Some('\t')
    case 'b' => Some('\U{0008}')
    case 'f' => Some('\U{000C}')
    case _ => None
  }

  /** One character of a string's inside, and the rest. */
  function ReadChar(t: string): (r: Option<(char, string)>)
    requires t != ""
    ensures r.Some? ==> |r.value.1| < |t|
  {
    if t[0] != '\\' then (if t[0] < ' ' || t[0] == '"' then None else Some((t[0], t[1..])))
    else if |t| < 2 then None
    else if t[1] == 'u' then
      if |t| < 6 then None
      else (match HexPoint(t[2..6]) case Some(c) => Some((c, t[6..])) case None => None)
    else (match CodedChar(t[1]) case Some(c) => Some((c, t[2..])) case None => None)
  }

  /** The inside of a string up to its closing quotation mark, and the rest after it. */
  function ReadChars(t: string): (r: Option<(string, string)>)
    ensures r.Some? ==> |r.value.1| < |t|
    decreases |t|
  {
    if t == "" then None
    else if t[0] == '"' then Some(("", t[1..]))
    else match ReadChar(t)
      case None => None
      case Some((c, rest)) =>
        (match ReadChars(rest)
         case None => None
         case Some((s, after)) => Some(([c] + s, after)))
  }

  function ReadNumber(t: string, soFar: nat): (r: (nat, string))
    ensures |r.1| <= |t|
    decreases |t|
  {
    if t != "" && IsDigit(t[0]) then ReadNumber(t[1..], 10 * soFar + DigitValue(t[0])) else (soFar, t)
  }

  predicate StartsWith(t: string, prefix: string) {
    |prefix| <= |t| && t[..|prefix|] == prefix
  }

  /** A value at the front of `t`, and the rest. */
  function Read(t: string): (r: Option<(Value, string)>)
    ensures r.Some? ==> |r.value.1| < |t|
    decreases |t|, 0
  {
    if t == "" then None
    else if StartsWith(t, "null") then Some((Null, t[4..]))
    else if IsDigit(t[0]) then
      var (n, rest) := ReadNumber(t[1..], DigitValue(t[0]));
      Some((Number(n), rest))
    else if t[0] == '"' then
      (match ReadChars(t[1..]) case Some((s, rest)) => Some((Text(s), rest)) case None => None)
    else if t[0] == '[' then
      if StartsWith(t[1..], "]") then Some((List([]), t[2..]))
      else (match ReadItems(t[1..]) case Some((items, rest)) => Some((List(items), rest)) case None => None)
    else if t[0] == '{' then
      if StartsWith(t[1..], "}") then Some((Object([]), t[2..]))
      else (match ReadFields(t[1..]) case Some((fields, rest)) => Some((Object(fields), rest)) case None => None)
    else None
  }

  /** Items up to and with the closing bracket. */
  function ReadItems(t: string): (r: Option<(seq<Value>, string)>)
    ensures r.Some? ==> |r.value.1| < |t|
    decreases |t|, 1
  {
    match Read(t)
    case None => None
    case Some((v, rest)) =>
      if StartsWith(rest, "]") then Some(([v], rest[1..]))
      else if StartsWith(rest, ",") then
        (match ReadItems(rest[1..]) case Some((vs, after)) => Some(([v] + vs, after)) case None => None)
      else None
  }

  function ReadField(t: string): (r: Option<(Field, string)>)
    ensures r.Some? ==> |r.value.1| < |t|
    decreases |t|, 0
  {
    if !StartsWith(t, "\"") then None
    else match ReadChars(t[1..])
      case None => None
      case Some((name, rest)) =>
        if !StartsWith(rest, ":") then None
        else (match Read(rest[1..]) case Some((v, after)) => Some((Field(name, v), after)) case None => None)
  }

  /** Fields up to and with the closing brace. */
  function ReadFields(t: string): (r: Option<(seq<Field>, string)>)
    ensures r.Some? ==> |r.value.1| < |t|
    decreases |t|, 1
  {
    match ReadField(t)
    case None => None
    case Some((f, rest)) =>
      if StartsWith(rest, "}") then Some(([f], rest[1..]))
      else if StartsWith(rest, ",") then
        (match ReadFields(rest[1..]) case Some((fs, after)) => Some(([f] + fs, after)) case None => None)
      else None
  }

  /** A whole text that is one value. */
  function Decode(t: string): Option<Value> {
    match Read(t)
    case Some((v, rest)) => if rest == "" then Some(v) else None
    case None => None
  }

  // ----- reading back what was printed -----

  lemma StartsWithPrefix(prefix: string, rest: string)
    ensures StartsWith(prefix + rest, prefix) && (prefix + rest)[|prefix|..] == rest
  {
    assert (prefix + rest)[..|prefix|] == prefix;
  }

  lemma HexRoundTrip(d: nat)
    requires d < 16
    ensures HexValue(HexChar(d)) == Some(d)
  {
  }

  lemma ReadLongEscape(c: char, tail: string)
    requires c < ' '
    ensures ReadChar(LongEscape(c) + tail) == Some((c, tail)) && NoMarkup(LongEscape(c))
  {
    var e := LongEscape(c);
    HexRoundTrip(c as nat / 16);
    HexRoundTrip(c as nat % 16);
    var high, low := HexChar(c as nat / 16), HexChar(c as nat % 16);
    assert !IsMarkup(high) && !IsMarkup(low);
    hide HexChar, HexValue;
    assert (e + tail)[2..6] == ['0', '0', high, low] && (e + tail)[6..] == tail;
    assert HexValue('0') == Some(0) by { ZeroIsHex(); }
    assert 16 * (c as nat / 16) + c as nat % 16 == c as nat;
  }

  lemma ZeroIsHex()
    ensures HexValue('0') == Some(0)
  {
  }

  lemma ReadMarkup(c: char, tail: string)
    requires IsMarkup(c)
    ensures ReadChar(GuardedChar(c) + tail) == Some((c, tail))
  {
    var e := GuardedChar(c);
    assert (e + tail)[2..6] == e[2..6] && (e + tail)[6..] == tail;
  }

  /** A character that must be escaped takes two characters if there is a code for it, and six
      otherwise; any other stands for itself. */
  lemma EscapesAreShortest(c: char)
    ensures |EscapedChar(c)|
      == if c >= ' ' && c != '"' && c != '\\' then 1 else if exists code :: CodedChar(code) == Some(c) then 2 else 6
  {
    if ShortCode(c).Some? {
      assert CodedChar(ShortCode(c).value) == Some(c);
    }
  }

  lemma ShortCodes(c: char)
    ensures var code := ShortCode(c);
      code.Some? ==> CodedChar(code.value) == Some(c) && code.value != 'u' && !IsMarkup(code.value)
  {
  }

  lemma ReadShortEscape(c: char, tail: string)
    requires ShortCode(c).Some?
    ensures var e := ['\\', ShortCode(c).value];
      ReadChar(e + tail) == Some((c, tail)) && NoMarkup(e)
  {
    hide ShortCode, CodedChar;
    ShortCodes(c);
    assert (['\\', ShortCode(c).value] + tail)[2..] == tail;
  }

  function PrintedChar(c: char): string {
    Guard(EscapedChar(c))
  }

  predicate IsPlain(c: char) {
    c >= ' ' && c != '"' && c != '\\'
  }

  lemma ReadPlain(c: char, tail: string)
    requires IsPlain(c)
    ensures GuardedChar(c)[0] != '"' && ReadChar(GuardedChar(c) + tail) == Some((c, tail))
  {
    if IsMarkup(c) {
      ReadMarkup(c, tail);
    } else {
      assert ([c] + tail)[1..] == tail;
    }
  }

  lemma PlainStands(c: char)
    requires IsPlain(c)
    ensures PrintedChar(c) == GuardedChar(c)
  {
    assert EscapedChar(c) == [c];
    assert [c][1..] == "" && GuardedChar(c) + "" == GuardedChar(c);
    assert Guard([c]) == GuardedChar(c) + Guard([c][1..]);
  }

  /** Reading one printed character gives it back, whatever follows. */
  lemma ReadPrintedChar(c: char, tail: string)
    ensures PrintedChar(c) != "" && PrintedChar(c)[0] != '"'
    ensures ReadChar(PrintedChar(c) + tail) == Some((c, tail))
  {
    hide ReadChar, Guard, GuardedChar, ShortCode, HexChar;
    if ShortCode(c).Some? {
      ReadShortEscape(c, tail);
      GuardNothing(EscapedChar(c));
    } else if c < ' ' {
      ReadLongEscape(c, tail);
      GuardNothing(EscapedChar(c));
    } else {
      NoShortIsPlain(c);
      PlainStands(c);
      ReadPlain(c, tail);
    }
  }

  lemma NoShortIsPlain(c: char)
    requires ShortCode(c).None? && c >= ' '
    ensures IsPlain(c)
  {
  }

  lemma GuardedChars(s: string)
    requires s != ""
    ensures Guard(PrintChars(s)) == PrintedChar(s[0]) + Guard(PrintChars(s[1..]))
  {
    hide EscapedChar, Guard;
    GuardConcat(EscapedChar(s[0]), PrintChars(s[1..]));
  }

  /** Strings decode to themselves: markup, quotation marks, controls and all. */
  lemma {:induction false} ReadPrintedChars(s: string, tail: string)
    ensures ReadChars(Guard(PrintChars(s)) + ("\"" + tail)) == Some((s, tail))
    decreases |s|
  {
    hide Guard, PrintedChar, PrintChars, ReadChar;
    if s == "" {
      NothingPrinted();
      assert ("\"" + tail)[1..] == tail;
      assert "" + ("\"" + tail) == "\"" + tail;
    } else {
      GuardedChars(s);
      var rest := Guard(PrintChars(s[1..])) + ("\"" + tail);
      ReadPrintedChar(s[0], rest);
      assert Guard(PrintChars(s)) + ("\"" + tail) == PrintedChar(s[0]) + rest;
      ReadPrintedChars(s[1..], tail);
      assert s == [s[0]] + s[1..];
    }
  }

  lemma NothingPrinted()
    ensures Guard(PrintChars("")) == ""
  {
  }

  lemma {:induction false} NumbersHaveNoMarkup(n: nat)
    ensures NoMarkup(PrintNumber(n)) && PrintNumber(n) != "" && IsDigit(PrintNumber(n)[0])
  {
    if n >= 10 {
      NumbersHaveNoMarkup(n / 10);
    }
  }

  lemma {:induction false} ReadPrintedNumber(n: nat, tail: string)
    ensures ReadNumber(PrintNumber(n) + tail, 0) == ReadNumber(tail, n)
    decreases n
  {
    var d := [DigitChar(n % 10)];
    assert (d + tail)[1..] == tail;
    if n >= 10 {
      ReadPrintedNumber(n / 10, d + tail);
      assert PrintNumber(n) + tail == PrintNumber(n / 10) + (d + tail);
    }
  }

  predicate NoDigitFirst(t: string) {
    t == "" || !IsDigit(t[0])
  }

  lemma ReadCompactNumber(n: nat, rest: string)
    requires NoDigitFirst(rest)
    ensures Read(Compact(Number(n)) + rest) == Some((Number(n), rest))
  {
    NumbersHaveNoMarkup(n);
    GuardNothing(PrintNumber(n));
    hide PrintNumber, Guard;
    ReadPrintedNumber(n, rest);
    var t := PrintNumber(n) + rest;
    assert !StartsWith(t, "null") by { assert t[0] != 'n'; DigitIsNoNull(t); }
  }

  lemma DigitIsNoNull(t: string)
    requires t != "" && t[0] != 'n'
    ensures !StartsWith(t, "null")
  {
    if |t| >= 4 { assert t[..4][0] == t[0]; }
  }

  lemma CompactText(s: string)
    ensures Guard(PrintText(s)) == "\"" + (Guard(PrintChars(s)) + "\"")
  {
    hide PrintChars, Guard;
    GuardConcat("\"" + PrintChars(s), "\"");
    GuardConcat("\"", PrintChars(s));
    GuardNothing("\"");
  }

  lemma ReadPrintedText(s: string, rest: string)
    ensures var t := Guard(PrintText(s)) + rest;
      t != "" && t[0] == '"' && ReadChars(t[1..]) == Some((s, rest))
  {
    hide PrintText, PrintChars, Guard, ReadChars;
    CompactText(s);
    ReadPrintedChars(s, rest);
    var t := Guard(PrintText(s)) + rest;
    assert t[1..] == Guard(PrintChars(s)) + ("\"" + rest);
  }

  lemma ReadCompactText(s: string, rest: string)
    ensures Read(Compact(Text(s)) + rest) == Some((Text(s), rest))
  {
    hide PrintText, Guard, ReadChars;
    ReadPrintedText(s, rest);
    DigitIsNoNull(Guard(PrintText(s)) + rest);
  }

  lemma Bracketed(open: string, inner: string, close: string)
    requires NoMarkup(open) && NoMarkup(close)
    ensures Guard(open + inner + close) == open + Guard(inner) + close
  {
    hide Guard;
    GuardConcat(open + inner, close);
    GuardConcat(open, inner);
    GuardNothing(open);
    GuardNothing(close);
  }

  /** A printed value starts with none of the closing or separating characters. */
  lemma CompactStarts(v: Value)
    ensures Compact(v) != "" && Compact(v)[0] != ']' && Compact(v)[0] != '}' && Compact(v)[0] != ','
  {
    match v
    case Null => GuardNothing("null");
    case Number(n) =>
      NumbersHaveNoMarkup(n);
      GuardNothing(PrintNumber(n));
    case Text(text) => CompactText(text);
    case List(items) => Bracketed("[", PrintItems(items), "]");
    case Object(fields) => Bracketed("{", PrintFields(fields), "}");
  }

  lemma Separated(a: string, separator: string, b: string)
    requires NoMarkup(separator)
    ensures Guard(a + separator + b) == Guard(a) + (separator + Guard(b))
  {
    hide Guard;
    GuardConcat(a + separator, b);
    GuardConcat(a, separator);
    GuardNothing(separator);
    assert (Guard(a) + separator) + Guard(b) == Guard(a) + (separator + Guard(b));
  }

  lemma ItemsFirst(items: seq<Value>)
    requires |items| > 1
    ensures Guard(PrintItems(items)) == Compact(items[0]) + ("," + Guard(PrintItems(items[1..])))
  {
    hide Guard, Print;
    var front, rest := Print(items[0]), PrintItems(items[1..]);
    assert PrintItems(items) == front + "," + rest;
    hide PrintItems;
    Separated(front, ",", rest);
  }

  function CompactField(f: Field): string {
    Guard(PrintField(f))
  }

  lemma FieldSplit(f: Field)
    ensures CompactField(f) == Guard(PrintText(f.name)) + (":" + Compact(f.value))
  {
    hide Guard, Print, PrintText;
    Separated(PrintText(f.name), ":", Print(f.value));
  }

  lemma FieldsFirst(fields: seq<Field>)
    requires |fields| > 1
    ensures Guard(PrintFields(fields)) == CompactField(fields[0]) + ("," + Guard(PrintFields(fields[1..])))
  {
    hide Guard, PrintField;
    var front, rest := PrintField(fields[0]), PrintFields(fields[1..]);
    assert PrintFields(fields) == front + "," + rest;
    hide PrintFields;
    Separated(front, ",", rest);
  }

  lemma OneStep(prefix: char, rest: string)
    ensures StartsWith([prefix] + rest, [prefix]) && ([prefix] + rest)[1..] == rest
    ensures forall c :: c != prefix ==> !StartsWith([prefix] + rest, [c])
  {
    StartsWithPrefix([prefix], rest);
    forall c | c != prefix ensures !StartsWith([prefix] + rest, [c]) {
      assert ([prefix] + rest)[..1][0] == prefix;
    }
  }

  lemma {:induction false} ReadsItems(items: seq<Value>, rest: string)
    requires items != []
    ensures ReadItems(Guard(PrintItems(items)) + ("]" + rest)) == Some((items, rest))
    decreases items, 1
  {
    hide Guard, Print, Read, StartsWith;
    if |items| == 1 {
      Reads(items[0], "]" + rest);
      OneStep(']', rest);
      assert items == [items[0]];
    } else {
      ItemsFirst(items);
      var more := Guard(PrintItems(items[1..])) + ("]" + rest);
      assert Guard(PrintItems(items)) + ("]" + rest) == Compact(items[0]) + ("," + more);
      Reads(items[0], "," + more);
      OneStep(',', more);
      ReadsItems(items[1..], rest);
      assert items == [items[0]] + items[1..];
    }
  }

  lemma {:induction false} ReadsField(f: Field, rest: string)
    requires NoDigitFirst(rest)
    ensures ReadField(CompactField(f) + rest) == Some((f, rest))
    decreases f, 0
  {
    hide Guard, Print, PrintText, Read, ReadChars, StartsWith, CompactField;
    FieldSplit(f);
    var after := Compact(f.value) + rest;
    assert CompactField(f) + rest == Guard(PrintText(f.name)) + (":" + after);
    ReadPrintedText(f.name, ":" + after);
    var t := Guard(PrintText(f.name)) + (":" + after);
    assert t == ['"'] + t[1..];
    OneStep('"', t[1..]);
    OneStep(':', after);
    Reads(f.value, rest);
  }

  lemma {:induction false} ReadsFields(fields: seq<Field>, rest: string)
    requires fields != []
    ensures ReadFields(Guard(PrintFields(fields)) + ("}" + rest)) == Some((fields, rest))
    decreases fields, 1
  {
    hide Guard, PrintField, ReadField, StartsWith;
    if |fields| == 1 {
      ReadsField(fields[0], "}" + rest);
      OneStep('}', rest);
      assert fields == [fields[0]];
    } else {
      FieldsFirst(fields);
      var more := Guard(PrintFields(fields[1..])) + ("}" + rest);
      assert Guard(PrintFields(fields)) + ("}" + rest) == CompactField(fields[0]) + ("," + more);
      ReadsField(fields[0], "," + more);
      OneStep(',', more);
      ReadsFields(fields[1..], rest);
      assert fields == [fields[0]] + fields[1..];
    }
  }

  lemma ItemsStart(items: seq<Value>, tail: string)
    requires items != []
    ensures !StartsWith(Guard(PrintItems(items)) + tail, "]")
  {
    CompactStarts(items[0]);
    if |items| > 1 {
      ItemsFirst(items);
    }
    hide Guard, PrintItems, Print;
    var t := Guard(PrintItems(items)) + tail;
    assert t[0] == Compact(items[0])[0];
    assert t[..1][0] == t[0];
  }

  lemma FieldsStart(fields: seq<Field>, tail: string)
    requires fields != []
    ensures !StartsWith(Guard(PrintFields(fields)) + tail, "}")
  {
    FieldSplit(fields[0]);
    CompactText(fields[0].name);
    if |fields| > 1 {
      FieldsFirst(fields);
    }
    hide Guard, PrintFields, Print, PrintText;
    var t := Guard(PrintFields(fields)) + tail;
    assert t[..1][0] == t[0];
  }

  lemma {:induction false} ReadsList(items: seq<Value>, rest: string)
    ensures Read(Compact(List(items)) + rest) == Some((List(items), rest))
    decreases items, 2
  {
    hide Guard, PrintItems, ReadItems, StartsWith;
    Bracketed("[", PrintItems(items), "]");
    var inner := Guard(PrintItems(items)) + ("]" + rest);
    assert Compact(List(items)) + rest == "[" + inner;
    assert ("[" + inner)[1..] == inner;
    DigitIsNoNull("[" + inner);
    if items == [] {
      NoItemsPrinted();
      assert inner == "]" + rest;
      OneStep(']', rest);
      assert ("[" + inner)[2..] == rest;
    } else {
      ItemsStart(items, "]" + rest);
      ReadsItems(items, rest);
    }
  }

  lemma NoItemsPrinted()
    ensures Guard(PrintItems([])) == "" && Guard(PrintFields([])) == ""
  {
  }

  lemma {:induction false} ReadsObject(fields: seq<Field>, rest: string)
    ensures Read(Compact(Object(fields)) + rest) == Some((Object(fields), rest))
    decreases fields, 2
  {
    hide Guard, PrintFields, ReadFields, StartsWith;
    Bracketed("{", PrintFields(fields), "}");
    var inner := Guard(PrintFields(fields)) + ("}" + rest);
    assert Compact(Object(fields)) + rest == "{" + inner;
    assert ("{" + inner)[1..] == inner;
    DigitIsNoNull("{" + inner);
    if fields == [] {
      NoItemsPrinted();
      assert inner == "}" + rest;
      OneStep('}', rest);
      assert ("{" + inner)[2..] == rest;
    } else {
      FieldsStart(fields, "}" + rest);
      ReadsFields(fields, rest);
    }
  }

  lemma ReadsNull(rest: string)
    ensures Read(Compact(Null) + rest) == Some((Null, rest))
  {
    GuardNothing("null");
    StartsWithPrefix("null", rest);
  }

  /** Reading a printed value gives it back with what follows, for every value. */
  lemma {:induction false} Reads(v: Value, rest: string)
    requires NoDigitFirst(rest)
    ensures Read(Compact(v) + rest) == Some((v, rest))
    decreases v, 3
  {
    hide Compact, Read;
    match v
    case Null => ReadsNull(rest);
    case Number(n) => ReadCompactNumber(n, rest);
    case Text(text) => ReadCompactText(text, rest);
    case List(items) => ReadsList(items, rest);
    case Object(fields) => ReadsObject(fields, rest);
  }

  /** Decoding what was compacted is the identity, and the compact text holds no markup. */
  lemma CompactRoundTrip(v: Value)
    ensures Decode(Compact(v)) == Some(v) && NoMarkup(Compact(v))
  {
    hide Guard, Print, Read;
    Reads(v, "");
    assert Compact(v) + "" == Compact(v);
    GuardedHasNoMarkup(Print(v));
  }
}
