// The status line as the Go program writes it (status/status.go:23-32, 75-110), read
// back by the programs of qnatter-status (57-121).

module GoStatusLine {
  import opened Text
  import opened Hexadecimal
  import opened StatusLine
  import opened StatusRoundTrip

  // ---- The writer ----

  predicate IsControl(c: char) {
    c < ' ' && c != '\n' && c != '\r' && c != '\t'
  }

  // U+2028 and U+2029
  predicate IsSeparator(c: char) {
    c as int == 0x2028 || c as int == 0x2029
  }

  // The four hexadecimal digits encoding/json prints for a character, if it does.
  function CodeOf(html: bool, c: char): Option<string> {
    if IsControl(c) && c as int != 0x08 && c as int != 0x0c then Some("00" + [HexDigit(c as int / 16), HexDigit(c as int % 16)])
    else if html && c == '<' then Some("003c")
    else if html && c == '>' then Some("003e")
    else if html && c == '&' then Some("0026")
    else if c as int == 0x2028 then Some("2028")
    else if c as int == 0x2029 then Some("2029")
    else None
  }

  // The letter it prints behind a backslash, if it does.
  function LetterOf(c: char): Option<char> {
    if c == '"' || c == '\\' then Some(c)
    else if c == '\n' then Some('n')
    else if c == '\r' then Some('r')
    else if c == '\t' then Some('t')
    else if c as int == 0x08 then Some('b')
    else if c as int == 0x0c then Some('f')
    else None
  }

  // html is the encoder's EscapeHTML setting, which this program switches off.
  function GoEscaped(html: bool, c: char): string {
    if LetterOf(c).Some? then ['\\', LetterOf(c).value]
    else if CodeOf(html, c).Some? then "\\u" + CodeOf(html, c).value
    else [c]
  }

  // What encoding/json prints for some characters.
  lemma GoCodes(html: bool)
    ensures GoEscaped(html, '"') == "\\\"" && GoEscaped(html, '\\') == "\\\\" && GoEscaped(html, '\n') == "\\n"
    ensures GoEscaped(html, 0x08 as char) == "\\b" && GoEscaped(html, 0x0c as char) == "\\f" && GoEscaped(html, 0x1f as char) == "\\u001f"
    ensures GoEscaped(html, '<') == (if html then "\\u003c" else "<") && GoEscaped(html, 0x2028 as char) == "\\u2028"
  {
  }

  function GoFlat(html: bool, s: string): string {
    if s == "" then "" else GoEscaped(html, s[0]) + GoFlat(html, s[1..])
  }

  function GoPrinted(html: bool, f: Field): string {
    match f
    case TextField(key, value) => "\"" + GoFlat(html, value) + "\""
    case PortField(key, value) => value
  }

  function GoPieces(html: bool, fields: seq<Field>): (ps: seq<Piece>)
    ensures |ps| == |fields| && forall i :: 0 <= i < |ps| ==> ps[i] == Piece(fields[i].key, GoPrinted(html, fields[i]))
  {
    seq(|fields|, i requires 0 <= i < |fields| => Piece(fields[i].key, GoPrinted(html, fields[i])))
  }

  function GoLine(html: bool, fields: seq<Field>): string
    requires fields != []
  {
    "{" + TextOf(GoPieces(html, fields))
  }

  // WriteMapping: an empty instance or message is replaced.
  function MappingFields(instance: string, protocol: string, innerIp: string, innerPort: nat, outerIp: string, outerPort: nat,
                         now: string, message: string): seq<Field> {
    [TextField("instance", if instance == "" then "default" else instance), TextField("protocol", protocol),
     TextField("inner_ip", innerIp), PortField("inner_port", Dec(innerPort)),
     TextField("outer_ip", outerIp), PortField("outer_port", Dec(outerPort)),
     TextField("updated_at", now), TextField("message", if message == "" then "mapped" else message)]
  }

  // ---- The reader on it ----

  // What the reader makes of the code for c: it knows the letters n, r and t, and the
  // codes of the three HTML characters; any other code it leaves as it stands.
  function Back(c: char): (s: string)
    ensures s != "" && (s[|s| - 1] == '\n' ==> s == "\n" && c == '\n')
    ensures s == [c] || |s| == 6 || (|s| == 1 && s[0] != c)
  {
    if c as int == 0x08 then "b"
    else if c as int == 0x0c then "f"
    else if IsControl(c) || IsSeparator(c) then "\\u" + CodeOf(false, c).value
    else [c]
  }

  function BackAll(s: string): string {
    if s == "" then "" else Back(s[0]) + BackAll(s[1..])
  }

  lemma UnescapeCode(d: string, tail: string)
    requires |d| == 4 && IsHex(d[0]) && IsHex(d[1]) && IsHex(d[2]) && IsHex(d[3])
    ensures Unescape("\\u" + d + tail) == Prepend(if HtmlEscape(d) != "" then HtmlEscape(d) else "\\u" + d, Unescape(tail))
  {
    var line := "\\u" + d + tail;
    assert line[2..] == d + tail && AtMost(4, d + tail) == d && line[6..] == tail;
    if HtmlEscape(d) == "" {
      UnescapePlains(d, tail);
      PrependTwice("\\u", d, Unescape(tail));
    }
  }

  // Characters that are neither quotes nor backslashes are read as they are.
  lemma {:induction false} UnescapePlains(d: string, tail: string)
    requires '"' !in d && '\\' !in d
    ensures Unescape(d + tail) == Prepend(d, Unescape(tail))
  {
    if d == "" {
      assert d + tail == tail;
      PrependNothing(Unescape(tail));
    } else {
      UnescapePlains(d[1..], tail);
      UnescapePlain(d[0], d[1..] + tail);
      assert d + tail == [d[0]] + (d[1..] + tail) && d == [d[0]] + d[1..];
      PrependTwice([d[0]], d[1..], Unescape(tail));
    }
  }

  lemma CodeIsHex(html: bool, c: char)
    requires CodeOf(html, c).Some?
    ensures var d := CodeOf(html, c).value;
            && |d| == 4 && IsHex(d[0]) && IsHex(d[1]) && IsHex(d[2]) && IsHex(d[3])
            && (if HtmlEscape(d) != "" then HtmlEscape(d) else "\\u" + d) == Back(c)
  {
    if IsControl(c) {
      var d := CodeOf(html, c).value;
      assert HexValue(d[2]) == c as int / 16 < 2 && HexValue('2') == 2 && HexValue('3') == 3;
      assert d[2] != "0026"[2] && d[2] != "003c"[2];
    }
  }

  // One character, whatever way it was printed.
  lemma UnescapeGo(html: bool, c: char, tail: string)
    ensures Unescape(GoEscaped(html, c) + tail) == Prepend(Back(c), Unescape(tail))
  {
    if LetterOf(c).Some? {
      UnescapeTwo(LetterOf(c).value, tail);
    } else if CodeOf(html, c).Some? {
      CodeIsHex(html, c);
      UnescapeCode(CodeOf(html, c).value, tail);
    } else {
      UnescapePlain(c, tail);
    }
  }

  lemma QuoteBehind(a: string, b: string, rest: string)
    ensures (a + b) + "\"" + rest == a + (b + "\"" + rest)
  {
  }

  lemma {:induction false} UnescapeGoFlat(html: bool, s: string, rest: string)
    ensures Unescape(GoFlat(html, s) + "\"" + rest) == Some(BackAll(s))
  {
    if s == "" {
      assert (GoFlat(html, s) + "\"" + rest)[0] == '"';
    } else {
      UnescapeGoFlat(html, s[1..], rest);
      UnescapeGo(html, s[0], GoFlat(html, s[1..]) + "\"" + rest);
      QuoteBehind(GoEscaped(html, s[0]), GoFlat(html, s[1..]), rest);
    }
  }

  // ---- When that is what was written ----

  predicate Readable(s: string) {
    forall i :: 0 <= i < |s| ==> !IsControl(s[i]) && !IsSeparator(s[i])
  }

  lemma {:induction false} BackIsLonger(s: string)
    ensures |BackAll(s)| >= |s|
  {
    if s != "" {
      BackIsLonger(s[1..]);
    }
  }

  lemma BackOne(c: char)
    ensures Back(c) == [c] <==> !IsControl(c) && !IsSeparator(c)
  {
  }

  lemma ReadableCons(s: string)
    requires s != ""
    ensures Readable(s) <==> !IsControl(s[0]) && !IsSeparator(s[0]) && Readable(s[1..])
  {
    assert s == [s[0]] + s[1..];
  }

  lemma {:induction false} BackExactly(s: string)
    ensures BackAll(s) == s <==> Readable(s)
  {
    if s != "" {
      var c, t := s[0], s[1..];
      BackExactly(t);
      BackOne(c);
      ReadableCons(s);
      BackIsLonger(t);
      assert s == [c] + t;
      if BackAll(s) == s {
        assert |Back(c)| == 1 && BackAll(s)[0] == Back(c)[0];
        assert BackAll(s)[1..] == BackAll(t);
      }
    }
  }

  lemma {:induction false} BackAppend(a: string, b: string)
    ensures BackAll(a + b) == BackAll(a) + BackAll(b)
  {
    if a == "" {
      assert a + b == b;
    } else {
      assert (a + b)[1..] == a[1..] + b;
      BackAppend(a[1..], b);
    }
  }

  lemma BackAlone(c: char)
    ensures BackAll([c]) == Back(c)
  {
    assert [c][1..] == "" && BackAll("") == "";
    assert Back(c) + "" == Back(c);
  }

  lemma BackLast(init: string, c: char)
    ensures BackAll(init + [c]) == BackAll(init) + Back(c)
  {
    BackAppend(init, [c]);
    BackAlone(c);
  }

  lemma StripLast(s: string, c: char)
    ensures StripNewlines(s + [c]) == if c == '\n' then StripNewlines(s) else s + [c]
  {
    assert (s + [c])[..|s|] == s;
  }

  lemma StripOther(s: string, t: string)
    requires t != "" && t[|t| - 1] != '\n'
    ensures StripNewlines(s + t) == s + t
  {
    assert (s + t)[|s + t| - 1] == t[|t| - 1];
  }

  // Newlines at the end are lost alike before and after.
  lemma {:induction false} StripBack(s: string)
    ensures StripNewlines(BackAll(s)) == BackAll(StripNewlines(s))
  {
    if s != "" {
      var init, c := s[..|s| - 1], s[|s| - 1];
      assert s == init + [c];
      StripBack(init);
      BackLast(init, c);
      StripLast(init, c);
      if c == '\n' {
        StripLast(BackAll(init), c);
      } else {
        StripOther(BackAll(init), Back(c));
      }
    }
  }

  lemma {:induction false} ReadableStripped(s: string)
    ensures Readable(StripNewlines(s)) <==> Readable(s)
  {
    if s != "" && s[|s| - 1] == '\n' {
      ReadableStripped(s[..|s| - 1]);
      assert s == s[..|s| - 1] + ['\n'];
    }
  }

  lemma ReadsWhatWasWritten(s: string)
    ensures StripNewlines(BackAll(s)) == StripNewlines(s) <==> Readable(s)
  {
    StripBack(s);
    ReadableStripped(s);
    BackExactly(StripNewlines(s));
  }

  // ---- The whole line ----

  lemma CodeHasNoQuote(html: bool, c: char)
    ensures |GoEscaped(html, c)| <= 6 && QuotesEscaped(GoEscaped(html, c))
    ensures GoEscaped(html, c)[0] != '"'
  {
    if LetterOf(c).None? && CodeOf(html, c).Some? {
      CodeIsHex(html, c);
    }
  }

  lemma QuotesEscapedAppend(a: string, b: string)
    requires QuotesEscaped(a) && QuotesEscaped(b)
    ensures QuotesEscaped(a + b)
  {
    forall i | 0 <= i < |a + b| && (a + b)[i] == '"' ensures i > 0 && (a + b)[i - 1] == '\\' {
      if i >= |a| {
        assert b[i - |a|] == '"';
      }
    }
  }

  lemma {:induction false} GoQuotesEscaped(html: bool, s: string)
    ensures QuotesEscaped(GoFlat(html, s))
  {
    if s != "" {
      GoQuotesEscaped(html, s[1..]);
      CodeHasNoQuote(html, s[0]);
      QuotesEscapedAppend(GoEscaped(html, s[0]), GoFlat(html, s[1..]));
    }
  }

  predicate FieldsOk(fields: seq<Field>) {
    KeysOk(fields) && forall i :: 0 <= i < |fields| && fields[i].PortField? ==> fields[i].value != "" && AllDigits(fields[i].value)
  }

  lemma GoPiecesOk(html: bool, fields: seq<Field>)
    requires FieldsOk(fields)
    ensures PiecesOk(GoPieces(html, fields))
  {
    forall i | 0 <= i < |fields| ensures IsPrinted(GoPrinted(html, fields[i])) {
      if fields[i].TextField? {
        GoQuotesEscaped(html, fields[i].value);
        QuotedIsPrinted(GoFlat(html, fields[i].value));
      }
    }
  }

  // A text field is read back as it was written, but for newlines at its end, if and
  // only if it has no control character besides newline, return and tab, and no separator.
  lemma GoReadsText(html: bool, fields: seq<Field>, j: nat)
    requires FieldsOk(fields) && j < |fields| && fields[j].TextField?
    ensures ReadText(GoLine(html, fields), fields[j].key) == StripNewlines(BackAll(fields[j].value))
    ensures ReadText(GoLine(html, fields), fields[j].key) == StripNewlines(fields[j].value) <==> Readable(fields[j].value)
  {
    GoPiecesOk(html, fields);
    var post := ReadsQuoted(GoPieces(html, fields), j, GoFlat(html, fields[j].value));
    UnescapeGoFlat(html, fields[j].value, post);
    ReadsWhatWasWritten(fields[j].value);
  }

  lemma GoReadsPort(html: bool, fields: seq<Field>, j: nat)
    requires FieldsOk(fields) && j < |fields| && fields[j].PortField?
    ensures ReadPort(GoLine(html, fields), fields[j].key) == fields[j].value
  {
    GoPiecesOk(html, fields);
    ReadsDigits(GoPieces(html, fields), j);
  }

  // The text comes back under its key, but for newlines at its end, if and only if it is readable.
  predicate Returns(html: bool, fields: seq<Field>, key: string, value: string)
    requires fields != []
  {
    ReadText(GoLine(html, fields), key) == StripNewlines(value) <==> Readable(value)
  }

  // The line WriteMapping prints, field by field.
  lemma GoStatusRoundTrip(html: bool, instance: string, protocol: string, innerIp: string, innerPort: nat,
                          outerIp: string, outerPort: nat, now: string, message: string)
    ensures var fields := MappingFields(instance, protocol, innerIp, innerPort, outerIp, outerPort, now, message);
            && ReadPort(GoLine(html, fields), "inner_port") == Dec(innerPort)
            && ReadPort(GoLine(html, fields), "outer_port") == Dec(outerPort)
            && Returns(html, fields, "instance", if instance == "" then "default" else instance)
            && Returns(html, fields, "protocol", protocol)
            && Returns(html, fields, "inner_ip", innerIp)
            && Returns(html, fields, "outer_ip", outerIp)
            && Returns(html, fields, "updated_at", now)
            && Returns(html, fields, "message", if message == "" then "mapped" else message)
  {
    var fields := MappingFields(instance, protocol, innerIp, innerPort, outerIp, outerPort, now, message);
    GoKeys(fields);
    GoReadsText(html, fields, 0);
    GoReadsText(html, fields, 1);
    GoReadsText(html, fields, 2);
    GoReadsPort(html, fields, 3);
    GoReadsText(html, fields, 4);
    GoReadsPort(html, fields, 5);
    GoReadsText(html, fields, 6);
    GoReadsText(html, fields, 7);
  }

  lemma GoKeys(fields: seq<Field>)
    requires |fields| == 8
    requires fields[0].key == "instance" && fields[1].key == "protocol" && fields[2].key == "inner_ip" && fields[3].key == "inner_port"
    requires fields[4].key == "outer_ip" && fields[5].key == "outer_port" && fields[6].key == "updated_at" && fields[7].key == "message"
    ensures KeysOk(fields)
  {
  }
}
