/**
 The request document of applications_user/nikita_buddy/nikita_buddy.c: a small JSON writer, and two
 scanners that must get the written values back.

 A C string is the sequence of its characters without the terminating zero.
 */
module BuddyCodec {
  import opened Common

  const WORD: nat := 0x1_0000_0000

  type CString = s: string | '\0' !in s witness ""

  // ----- writing -----

  function Escaped(c: char): string {
    if c == '"' then "\\\""
    else if c == '\\' then "\\\\"
    else if c == '\n' then "\\n"
    else if c == '\r' then ""
    else if c == '\t' then "\\t"
    else [c]
  }

  function EscapedText(text: string): string {
    if text == "" then "" else Escaped(text[0]) + EscapedText(text[1..])
  }

  /** nb_json_escape_into */
  method EscapeInto(out: string, text: CString) returns (r: string)
    ensures r == out + EscapedText(text)
  {
    r := out;
    var p := 0;
    while p < |text|
      invariant 0 <= p <= |text| && r + EscapedText(text[p..]) == out + EscapedText(text)
    {
      var c := text[p];
      EscapeNext(r, text[p..]);
      ghost var r0 := r;
      match c {
        case '"' => r := r + "\\\"";
        case '\\' => r := r + "\\\\";
        case '\n' => r := r + "\\n";
        case '\r' =>
        case '\t' => r := r + "\\t";
        case _ => r := r + [c];
      }
      assert r == r0 + Escaped(c);
      assert text[p..][1..] == text[p + 1..];
      p := p + 1;
    }
    assert r + "" == r;
  }

  lemma EscapeNext(r: string, text: string)
    requires text != ""
    ensures (r + Escaped(text[0])) + EscapedText(text[1..]) == r + EscapedText(text)
  {
    Assoc(r, Escaped(text[0]), EscapedText(text[1..]));
  }

  lemma Assoc(a: string, b: string, c: string)
    ensures (a + b) + c == a + (b + c)
  {
  }

  function Digit(d: nat): char
    requires d < 10
  {
    "0123456789"[d]
  }

  /** What printf writes for an unsigned number. */
  function Decimal(n: nat): (s: string)
    ensures s != ""
  {
    if n < 10 then [Digit(n)] else Decimal(n / 10) + [Digit(n % 10)]
  }

  /** The document nb_send_prompt builds. */
  function Document(id: nat, text: string, ts: nat): string {
    "{\"id\":" + (Decimal(id) + (",\"text\":\"" + (EscapedText(text) + ("\",\"ts\":" + (Decimal(ts) + "}")))))
  }

  /** The document part of nb_send_prompt: the request gets the next number, modulo 2^32. */
  method SendPrompt(nextId: nat, text: CString, ts: nat) returns (id: nat, json: string)
    requires nextId < WORD && ts < WORD
    ensures id == (nextId + 1) % WORD && json == Document(id, text, ts)
  {
    id := (nextId + 1) % WORD;
    json := "{\"id\":" + (Decimal(id) + ",\"text\":\"");
    json := EscapeInto(json, text);
    json := json + ("\",\"ts\":" + (Decimal(ts) + "}"));
    DocumentParts("{\"id\":", Decimal(id), ",\"text\":\"", EscapedText(text), "\",\"ts\":" + (Decimal(ts) + "}"));
  }

  lemma DocumentParts(a: string, b: string, c: string, d: string, e: string)
    ensures ((a + (b + c)) + d) + e == a + (b + (c + (d + e)))
  {
  }

  // ----- reading -----

  ghost predicate OccursAt(s: string, key: string, i: nat) {
    i + |key| <= |s| && s[i..i + |key|] == key
  }

  /** strstr: the first occurrence. */
  method Find(s: string, key: string) returns (at: Option<nat>)
    ensures at.None? ==> forall i: nat :: !OccursAt(s, key, i)
    ensures at.Some? ==> OccursAt(s, key, at.value) && forall i: nat :: i < at.value ==> !OccursAt(s, key, i)
  {
    var i := 0;
    while i + |key| <= |s|
      invariant forall j: nat :: j < i ==> !OccursAt(s, key, j)
    {
      if s[i..i + |key|] == key { return Some(i); }
      i := i + 1;
    }
    at := None;
  }

  predicate IsDigit(c: char) {
    '0' <= c <= '9'
  }

  function DigitValue(c: char): nat
    requires IsDigit(c)
  {
    (c as int) - ('0' as int)
  }

  /** From the first digit on; a closing brace or a quote ends the search. */
  function FromDigit(s: string): string {
    if s == "" || IsDigit(s[0]) || s[0] == '}' || s[0] == '"' then s else FromDigit(s[1..])
  }

  /** Leading digits read behind an accumulated value, in 32 bits. */
  function DigitsValue(s: string, v: nat): nat
    decreases |s|
  {
    if s == "" || !IsDigit(s[0]) then v else DigitsValue(s[1..], (v * 10 + DigitValue(s[0])) % WORD)
  }

  function UintIn(s: string): Option<nat> {
    var rest := FromDigit(s);
    if rest == "" || !IsDigit(rest[0]) then None else Some(DigitsValue(rest, 0))
  }

  /** What is decoded up to a closing quote, the end or lack of room. */
  function Unescaped(s: string, room: nat): (r: string)
    ensures |r| <= room
    decreases |s|
  {
    if s == "" || s[0] == '"' || room == 0 then ""
    else if s[0] != '\\' then [s[0]] + Unescaped(s[1..], room - 1)
    else if |s| == 1 then ""
    else [if s[1] == 'n' then '\n' else if s[1] == 't' then '\t' else s[1]] + Unescaped(s[2..], room - 1)
  }

  function FromChar(s: string, c: char): string {
    if s == "" || s[0] == c then s else FromChar(s[1..], c)
  }

  function SkipSpaces(s: string): string {
    if s != "" && s[0] == ' ' then SkipSpaces(s[1..]) else s
  }

  function TextIn(s: string, room: nat): Option<string> {
    var colon := FromChar(s, ':');
    if colon == "" then None
    else
      var rest := SkipSpaces(colon[1..]);
      if rest == "" || rest[0] != '"' then None else Some(Unescaped(rest[1..], room))
  }

  /** The result of a scan: nothing without the key, otherwise read behind or from its first place. */
  ghost predicate FirstPlace(json: string, key: string, k: nat) {
    OccursAt(json, key, k) && forall i: nat :: i < k ==> !OccursAt(json, key, i)
  }

  /** nb_json_uint */
  method JsonUint(json: CString, key: string) returns (r: Option<nat>)
    ensures (forall k: nat :: !OccursAt(json, key, k)) ==> r == None
    ensures forall k: nat :: FirstPlace(json, key, k) ==> r == UintIn(json[k + |key|..])
  {
    var found := Find(json, key);
    if found.None? { return None; }
    var at := found.value + |key|;
    ghost var start := at;
    while at < |json| && !IsDigit(json[at])
      invariant start <= at <= |json| && FromDigit(json[at..]) == FromDigit(json[start..])
    {
      if json[at] == '}' || json[at] == '"' { break; }
      assert json[at..][1..] == json[at + 1..];
      at := at + 1;
    }
    assert FromDigit(json[start..]) == json[at..];
    if at == |json| || !IsDigit(json[at]) { return None; }
    var v := ReadDigits(json, at);
    r := Some(v);
  }

  method ReadDigits(json: CString, from: nat) returns (v: nat)
    requires from <= |json|
    ensures v == DigitsValue(json[from..], 0)
  {
    v := 0;
    var at := from;
    while at < |json| && IsDigit(json[at])
      invariant from <= at <= |json| && DigitsValue(json[at..], v) == DigitsValue(json[from..], 0)
    {
      assert json[at..][1..] == json[at + 1..];
      v := (v * 10 + DigitValue(json[at])) % WORD;
      at := at + 1;
    }
  }

  /** nb_json_text.  In a buffer of no characters there is no room even for the end mark, and the code
      writes past it whenever it finds a text. */
  method JsonText(json: CString, cap: nat) returns (r: Option<string>, overrun: bool)
    ensures (forall k: nat :: !OccursAt(json, "\"text\"", k)) ==> r == None
    ensures forall k: nat :: FirstPlace(json, "\"text\"", k) ==> r == TextIn(json[k..], Less(cap, 1))
    ensures overrun <==> cap == 0 && r.Some?
  {
    var found := Find(json, "\"text\"");
    if found.None? { return None, false; }
    r := ReadText(json, found.value, cap);
    overrun := cap == 0 && r.Some?;
  }

  /** nb_json_text from the key on. */
  method ReadText(json: CString, from: nat, cap: nat) returns (r: Option<string>)
    requires from <= |json|
    ensures r == TextIn(json[from..], Less(cap, 1))
  {
    var at := ScanTo(json, from, ':');
    if at == |json| { return None; }
    assert json[at..][1..] == json[at + 1..];
    at := ScanSpaces(json, at + 1);
    if at == |json| || json[at] != '"' { return None; }
    assert json[at..][1..] == json[at + 1..];
    var out := ReadString(json, at + 1, cap);
    r := Some(out);
  }

  /** strchr */
  method ScanTo(json: CString, from: nat, c: char) returns (at: nat)
    requires from <= |json|
    ensures at <= |json| && FromChar(json[from..], c) == json[at..] && (at < |json| ==> json[at] == c)
  {
    at := from;
    while at < |json| && json[at] != c
      invariant from <= at <= |json| && FromChar(json[at..], c) == FromChar(json[from..], c)
    {
      assert json[at..][1..] == json[at + 1..];
      at := at + 1;
    }
  }

  method ScanSpaces(json: CString, from: nat) returns (at: nat)
    requires from <= |json|
    ensures at <= |json| && SkipSpaces(json[from..]) == json[at..]
  {
    at := from;
    while at < |json| && json[at] == ' '
      invariant from <= at <= |json| && SkipSpaces(json[at..]) == SkipSpaces(json[from..])
    {
      assert json[at..][1..] == json[at + 1..];
      at := at + 1;
    }
  }

  /** One character of a string value, escaped or not; none when the text ends behind a backslash. */
  method DecodeOne(json: CString, at: nat, ghost room: nat) returns (c: Option<char>, next: nat)
    requires at < |json| && json[at] != '"' && room > 0
    ensures at < next <= |json|
    ensures Unescaped(json[at..], room) == if c.Some? then [c.value] + Unescaped(json[next..], room - 1) else ""
  {
    next := at + 1;
    assert json[at..][1..] == json[next..];
    if json[at] == '\\' {
      if next == |json| { return None, next; }
      c := Some(if json[next] == 'n' then '\n' else if json[next] == 't' then '\t' else json[next]);
      next := next + 1;
      assert json[at..][2..] == json[next..];
    } else {
      c := Some(json[at]);
    }
  }

  /** The copying loop of nb_json_text. */
  method ReadString(json: CString, from: nat, cap: nat) returns (out: string)
    requires from <= |json|
    ensures out == Unescaped(json[from..], Less(cap, 1))
  {
    var at := from;
    out := "";
    ghost var all, room := Unescaped(json[from..], Less(cap, 1)), Less(cap, 1);
    while at < |json| && json[at] != '"' && |out| + 1 < cap
      invariant from <= at <= |json| && |out| + room == Less(cap, 1)
      invariant out + Unescaped(json[at..], room) == all
      decreases |json| - at
    {
      var c;
      c, at := DecodeOne(json, at, room);
      if c.None? {
        assert out + "" == out;
        return;
      }
      Assoc(out, [c.value], Unescaped(json[at..], room - 1));
      out, room := out + [c.value], room - 1;
    }
    assert out + "" == out;
  }

  // ----- the round trip -----

  /** The prompt without carriage returns. */
  function NoReturns(text: string): string {
    if text == "" then "" else (if text[0] == '\r' then "" else [text[0]]) + NoReturns(text[1..])
  }

  /** Reading a string body back, up to the room there is: an escape is never cut in two. */
  lemma {:induction false} UnescapeEscaped(text: string, behind: string, room: nat)
    ensures Unescaped(EscapedText(text) + ("\"" + behind), room) == Cut(NoReturns(text), room)
    decreases |text|
  {
    var close := "\"" + behind;
    if text == "" {
      assert EscapedText(text) + close == close;
    } else {
      var c, rest := text[0], EscapedText(text[1..]) + close;
      Assoc(Escaped(c), EscapedText(text[1..]), close);
      assert EscapedText(text) + close == Escaped(c) + rest;
      if c == '\r' {
        UnescapeEscaped(text[1..], behind, room);
        assert "" + rest == rest && "" + NoReturns(text[1..]) == NoReturns(text[1..]);
      } else if room > 0 {
        UnescapeEscaped(text[1..], behind, room - 1);
        EscapedReads(c, rest, room);
        CutNext(c, NoReturns(text[1..]), room);
      } else {
        assert Cut(NoReturns(text), 0) == "";
      }
    }
  }

  lemma EscapedReads(c: char, rest: string, room: nat)
    requires c != '\r' && room > 0
    ensures Unescaped(Escaped(c) + rest, room) == [c] + Unescaped(rest, room - 1)
  {
    var s := Escaped(c) + rest;
    assert s[|Escaped(c)|..] == rest;
  }

  lemma CutNext(c: char, s: string, room: nat)
    requires room > 0
    ensures Cut([c] + s, room) == [c] + Cut(s, room - 1)
  {
  }

  lemma DigitRead(d: nat)
    requires d < 10
    ensures IsDigit(Digit(d)) && DigitValue(Digit(d)) == d
  {
  }

  lemma DigitNext(m: nat, d: nat, behind: string)
    requires d < 10
    ensures DigitsValue([Digit(d)] + behind, m % WORD) == DigitsValue(behind, (m * 10 + d) % WORD)
  {
    DigitRead(d);
    WrapsAlong(m, d);
    assert ([Digit(d)] + behind)[1..] == behind;
  }

  lemma WrapsAlong(m: nat, d: nat)
    ensures (m % WORD * 10 + d) % WORD == (m * 10 + d) % WORD
  {
    var q, r := m / WORD, m % WORD;
    var x := r * 10 + d;
    Remainder(x, x / WORD, x % WORD);
    Remainder(m * 10 + d, 10 * q + x / WORD, x % WORD);
  }

  lemma Remainder(x: nat, q: nat, r: nat)
    requires x == WORD * q + r && r < WORD
    ensures x % WORD == r
  {
    assert x / WORD == q;
  }

  lemma DecimalParts(n: nat) returns (m: nat, d: nat)
    requires n >= 10
    ensures d < 10 && n == m * 10 + d && m < n && Decimal(n) == Decimal(m) + [Digit(d)]
  {
    m, d := n / 10, n % 10;
  }

  /** Reading back what was printed gives the number modulo 2^32. */
  lemma {:induction false} DigitsOfDecimal(n: nat, behind: string)
    ensures DigitsValue(Decimal(n) + behind, 0) == DigitsValue(behind, n % WORD)
  {
    if n < 10 {
      DigitNext(0, n, behind);
    } else {
      var m, d := DecimalParts(n);
      Assoc(Decimal(m), [Digit(d)], behind);
      DigitsOfDecimal(m, [Digit(d)] + behind);
      DigitNext(m, d, behind);
    }
  }

  predicate EndsSearch(c: char) {
    IsDigit(c) || c == '}' || c == '"'
  }

  lemma {:induction false} GapSkipped(gap: string, rest: string)
    requires forall i :: 0 <= i < |gap| ==> !EndsSearch(gap[i])
    requires rest == "" || EndsSearch(rest[0])
    ensures FromDigit(gap + rest) == rest
  {
    if gap == "" {
      assert gap + rest == rest;
    } else {
      assert (gap + rest)[1..] == gap[1..] + rest;
      GapSkipped(gap[1..], rest);
    }
  }

  /** A printed number of any size is read, modulo 2^32, behind anything but a digit, a closing brace or
      a quote; without a number in front of those there is none. */
  lemma NumberBehindGap(gap: string, n: nat, behind: string)
    requires forall i :: 0 <= i < |gap| ==> !EndsSearch(gap[i])
    requires behind == "" || !IsDigit(behind[0])
    ensures UintIn(gap + (Decimal(n) + behind)) == Some(n % WORD)
    ensures behind == "" || behind[0] == '}' || behind[0] == '"' ==> UintIn(gap + behind) == None
  {
    DecimalStarts(n);
    GapSkipped(gap, Decimal(n) + behind);
    DigitsOfDecimal(n, behind);
    if behind == "" || behind[0] == '}' || behind[0] == '"' { GapSkipped(gap, behind); }
  }

  function Blanks(n: nat): string {
    seq(n, _ => ' ')
  }

  lemma {:induction false} BlanksSkipped(n: nat, rest: string)
    requires rest == "" || rest[0] != ' '
    ensures SkipSpaces(Blanks(n) + rest) == rest
  {
    if n == 0 {
      assert Blanks(n) + rest == rest;
    } else {
      assert (Blanks(n) + rest)[1..] == Blanks(n - 1) + rest;
      BlanksSkipped(n - 1, rest);
    }
  }

  /** A text is read behind any number of blanks after the first colon; anything but blanks in front of
      its quote, or no colon, and there is none. */
  lemma TextBehindBlanks(key: string, n: nat, text: string, behind: string, room: nat)
    requires ':' !in key
    ensures TextIn(key + (":" + (Blanks(n) + ("\"" + (EscapedText(text) + ("\"" + behind))))), room)
         == Some(Cut(NoReturns(text), room))
    ensures behind == "" || (behind[0] != ' ' && behind[0] != '"') ==>
              TextIn(key + (":" + (Blanks(n) + behind)), room) == None
    ensures TextIn(key, room) == None
  {
    var value := "\"" + (EscapedText(text) + ("\"" + behind));
    ReadsBehind(key, n, value, room);
    assert value[1..] == EscapedText(text) + ("\"" + behind);
    UnescapeEscaped(text, behind, room);
    if behind == "" || (behind[0] != ' ' && behind[0] != '"') { ReadsBehind(key, n, behind, room); }
    NoColon(key);
  }

  lemma ReadsBehind(key: string, n: nat, value: string, room: nat)
    requires ':' !in key && (value == "" || value[0] != ' ')
    ensures TextIn(key + (":" + (Blanks(n) + value)), room)
         == if value == "" || value[0] != '"' then None else Some(Unescaped(value[1..], room))
  {
    KeySkipped(key, Blanks(n) + value);
    BlanksSkipped(n, value);
    assert (":" + (Blanks(n) + value))[1..] == Blanks(n) + value;
  }

  lemma {:induction false} NoColon(key: string)
    requires ':' !in key
    ensures FromChar(key, ':') == ""
  {
    if key != "" { NoColon(key[1..]); }
  }

  lemma {:induction false} EscapeConcat(a: string, b: string)
    ensures EscapedText(a + b) == EscapedText(a) + EscapedText(b)
    decreases |a|
  {
    if a == "" {
      assert a + b == b;
    } else {
      assert (a + b)[1..] == a[1..] + b;
      EscapeConcat(a[1..], b);
      Assoc(Escaped(a[0]), EscapedText(a[1..]), EscapedText(b));
    }
  }

  lemma {:induction false} EscapedStaysOnLine(text: string)
    ensures '\n' !in EscapedText(text) && '\r' !in EscapedText(text) && '\t' !in EscapedText(text)
  {
    if text != "" { EscapedStaysOnLine(text[1..]); }
  }

  /** What the writer makes of each character, anywhere in a text; in particular the text stays on one line. */
  lemma EscapeTable(a: string, c: char, b: string)
    ensures EscapedText(a + ([c] + b)) == EscapedText(a) + ((
              match c
              case '"' => "\\\""
              case '\\' => "\\\\"
              case '\n' => "\\n"
              case '\r' => ""
              case '\t' => "\\t"
              case _ => [c]) + EscapedText(b))
    ensures '\n' !in EscapedText(a) && '\r' !in EscapedText(a) && '\t' !in EscapedText(a)
  {
    EscapeConcat(a, [c] + b);
    EscapeConcat([c], b);
    EscapeOne(c);
    EscapedStaysOnLine(a);
  }

  lemma EscapeOne(c: char)
    ensures EscapedText([c]) == Escaped(c)
  {
    assert [c][1..] == "" && EscapedText("") == "";
  }

  lemma {:induction false} DecimalStarts(n: nat)
    ensures forall i :: 0 <= i < |Decimal(n)| ==> IsDigit(Decimal(n)[i])
  {
    if n >= 10 {
      DecimalStarts(n / 10);
    }
  }

  lemma IdPlace(id: nat, text: string, ts: nat)
    ensures FirstPlace(Document(id, text, ts), "\"id\"", 1)
  {
    var doc := Document(id, text, ts);
    assert doc[1..5] == "\"id\"";
    assert doc[0] == '{';
    OccursStarts(doc, "\"id\"", 0);
  }

  lemma TextPlace(id: nat, text: string, ts: nat)
    ensures FirstPlace(Document(id, text, ts), "\"text\"", 7 + |Decimal(id)|)
  {
    var doc, key, k := Document(id, text, ts), "\"text\"", 7 + |Decimal(id)|;
    DecimalStarts(id);
    assert doc[k..k + 6] == key;
    forall i: nat | i < k ensures !OccursAt(doc, key, i) {
      OccursStarts(doc, key, i);
      if 6 <= i < 6 + |Decimal(id)| {
        assert doc[i] == Decimal(id)[i - 6];
      }
    }
  }

  lemma OccursStarts(s: string, key: string, i: nat)
    requires |key| > 1
    ensures OccursAt(s, key, i) ==> i + 1 < |s| && s[i] == key[0] && s[i + 1] == key[1]
  {
    if OccursAt(s, key, i) {
      assert s[i..i + |key|][0] == s[i] && s[i..i + |key|][1] == s[i + 1];
    }
  }

  lemma {:induction false} EscapedIsCString(text: CString)
    ensures '\0' !in EscapedText(text)
    decreases |text|
  {
    if text != "" {
      EscapedIsCString(text[1..]);
    }
  }

  lemma DocumentIsCString(id: nat, text: CString, ts: nat)
    ensures '\0' !in Document(id, text, ts)
  {
    DecimalStarts(id);
    DecimalStarts(ts);
    EscapedIsCString(text);
  }

  /** For every prompt and number the document is a C string from which the scanners read back the
      number, and the prompt without carriage returns, cut to what the buffer holds. */
  lemma RequestRoundTrip(id: nat, text: CString, ts: nat, cap: nat)
    requires id < WORD && cap >= 1
    ensures var doc := Document(id, text, ts);
            && '\0' !in doc
            && FirstPlace(doc, "\"id\"", 1) && UintIn(doc[1 + |"\"id\""|..]) == Some(id)
            && var k := 7 + |Decimal(id)|;
               FirstPlace(doc, "\"text\"", k) && TextIn(doc[k..], cap - 1) == Some(Cut(NoReturns(text), cap - 1))
  {
    DocumentIsCString(id, text, ts);
    IdPlace(id, text, ts);
    TextPlace(id, text, ts);
    IdReads(id, text, ts);
    TextReads(id, text, ts, cap - 1);
  }

  lemma IdReads(id: nat, text: string, ts: nat)
    requires id < WORD
    ensures UintIn(Document(id, text, ts)[5..]) == Some(id)
  {
    var behind := ",\"text\":\"" + (EscapedText(text) + ("\",\"ts\":" + (Decimal(ts) + "}")));
    var rest := Decimal(id) + behind;
    assert Document(id, text, ts)[5..] == ":" + rest;
    DecimalStarts(id);
    assert FromDigit(":" + rest) == rest by { assert (":" + rest)[1..] == rest; }
    DigitsOfDecimal(id, behind);
  }

  lemma TextReads(id: nat, text: string, ts: nat, room: nat)
    ensures TextIn(Document(id, text, ts)[7 + |Decimal(id)|..], room) == Some(Cut(NoReturns(text), room))
  {
    var behind := ",\"ts\":" + (Decimal(ts) + "}");
    var value := "\"" + (EscapedText(text) + ("\"" + behind));
    var s := Document(id, text, ts)[7 + |Decimal(id)|..];
    assert s == "\"text\"" + (":" + value);
    KeySkipped("\"text\"", value);
    assert (":" + value)[1..] == value;
    UnescapeEscaped(text, behind, room);
    assert value[1..] == EscapedText(text) + ("\"" + behind);
  }

  lemma {:induction false} KeySkipped(key: string, value: string)
    requires ':' !in key
    ensures FromChar(key + (":" + value), ':') == ":" + value
  {
    if key == "" {
      assert key + (":" + value) == ":" + value;
    } else {
      assert (key + (":" + value))[1..] == key[1..] + (":" + value);
      KeySkipped(key[1..], value);
    }
  }

  /** The two ends of the mailbox: what is sent is what the scanners read. */
  method AskAndRead(nextId: nat, text: CString, ts: nat, cap: nat)
    returns (id: nat, readId: Option<nat>, readText: Option<string>)
    requires nextId < WORD && ts < WORD && cap >= 1
    ensures id == (nextId + 1) % WORD && readId == Some(id)
    ensures readText == Some(Cut(NoReturns(text), cap - 1))
  {
    var json;
    id, json := SendPrompt(nextId, text, ts);
    RequestRoundTrip(id, text, ts, cap);
    readId := JsonUint(json, "\"id\"");
    var overrun;
    readText, overrun := JsonText(json, cap);
  }
}
