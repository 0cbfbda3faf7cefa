// The status line: written by qnatter_write_status_json (qnatter-common.sh:263-311),
// read back by the awk and sed programs of qnatter-status (57-121).

module StatusLine {
  import opened Text

  // ---- The writer ----

  // gsub with a one-character pattern.
  function Gsub(c: char, with: string, s: string): string {
    if s == "" then "" else (if s[0] == c then with else [s[0]]) + Gsub(c, with, s[1..])
  }

  // Four substitutions, one after the other, on one record.
  function EscapeRecord(line: string): string {
    Gsub('\t', "\\t", Gsub('\r', "\\r", Gsub('"', "\\\"", Gsub('\\', "\\\\", line))))
  }

  // awk's records: the text between newlines, without an empty record at the end.
  function Records(s: string): (r: seq<string>)
    ensures s != "" ==> r != []
  {
    if s == "" then []
    else if s[0] == '\n' then [""] + Records(s[1..])
    else if |s| == 1 then [s]
    else if s[1] == '\n' then [[s[0]]] + Records(s[2..])
    else
      var more := Records(s[1..]);
      [[s[0]] + more[0]] + more[1..]
  }

  function Join(records: seq<string>): string {
    if records == [] then ""
    else if |records| == 1 then EscapeRecord(records[0])
    else EscapeRecord(records[0]) + "\\n" + Join(records[1..])
  }

  function JsonEscape(s: string): string {
    Join(Records(s))
  }

  // What $(...) keeps of a program's output.
  function StripNewlines(s: string): string {
    if s != "" && s[|s| - 1] == '\n' then StripNewlines(s[..|s| - 1]) else s
  }

  function StatusPort(port: string): (p: string)
    ensures p != "" && AllDigits(p)
  {
    if port == "" || !AllDigits(port) || |port| > 5 || Value(port) > 65535 then "0" else Dec(Value(port))
  }

  datatype Field = TextField(key: string, value: string) | PortField(key: string, value: string)

  function Printed(f: Field): string {
    match f
    case TextField(key, value) => "\"" + StripNewlines(JsonEscape(value)) + "\""
    case PortField(key, value) => StatusPort(value)
  }

  function Key(key: string): string {
    "\"" + key + "\":"
  }

  function Body(fields: seq<Field>): string {
    if fields == [] then ""
    else Key(fields[0].key) + Printed(fields[0]) + (if |fields| == 1 then "" else "," + Body(fields[1..]))
  }

  function Line(fields: seq<Field>): string {
    "{" + (Body(fields) + "}")
  }

  function StatusFields(instance: string, protocol: string, innerIp: string, innerPort: string, outerIp: string, outerPort: string, now: string, message: string): seq<Field> {
    [TextField("instance", instance), TextField("protocol", protocol), TextField("inner_ip", innerIp),
     PortField("inner_port", innerPort), TextField("outer_ip", outerIp), PortField("outer_port", outerPort),
     TextField("updated_at", now), TextField("message", message)]
  }

  // ---- The readers ----

  function HtmlEscape(hex: string): string {
    if hex == "003c" || hex == "003C" then "<"
    else if hex == "003e" || hex == "003E" then ">"
    else if hex == "0026" then "&"
    else ""
  }

  // The codes of three characters are known, in either case; no other is.
  lemma HtmlCodes(hex: string)
    ensures HtmlEscape(hex) == "<" <==> hex in ["003c", "003C"]
    ensures HtmlEscape(hex) == ">" <==> hex in ["003e", "003E"]
    ensures HtmlEscape(hex) == "&" <==> hex == "0026"
    ensures HtmlEscape(hex) in ["<", ">", "&", ""]
  {
  }

  function AtMost(n: nat, s: string): string {
    if |s| < n then s else s[..n]
  }

  // The text up to the first quote that is not escaped; None if there is none.
  function Unescape(s: string): Option<string> {
    if s == "" then None
    else if s[0] == '"' then Some("")
    else if s[0] != '\\' then Prepend([s[0]], Unescape(s[1..]))
    else if |s| == 1 then None
    else if s[1] == 'n' then Prepend("\n", Unescape(s[2..]))
    else if s[1] == 'r' then Prepend("\r", Unescape(s[2..]))
    else if s[1] == 't' then Prepend("\t", Unescape(s[2..]))
    else if s[1] == 'u' then
      var replacement := HtmlEscape(AtMost(4, s[2..]));
      if replacement != "" then Prepend(replacement, Unescape(s[6..])) else Prepend("\\u", Unescape(s[2..]))
    else Prepend([s[1]], Unescape(s[2..]))
  }

  function Prepend(p: string, r: Option<string>): Option<string> {
    match r
    case None => None
    case Some(s) => Some(p + s)
  }

  // What the character after a backslash stands for, and how many more it takes.
  function ReplacementOf(c: char, more: string): (string, nat) {
    if c == 'n' then ("\n", 0)
    else if c == 'r' then ("\r", 0)
    else if c == 't' then ("\t", 0)
    else if c == 'u' then
      var replacement := HtmlEscape(AtMost(4, more));
      if replacement != "" then (replacement, 4) else ("\\u", 0)
    else ([c], 0)
  }

  method Replacement(c: char, more: string) returns (text: string, used: nat)
    ensures (text, used) == ReplacementOf(c, more)
    ensures used <= |more|
  {
    text, used := [c], 0;
    if c == 'n' {
      text := "\n";
    } else if c == 'r' {
      text := "\r";
    } else if c == 't' {
      text := "\t";
    } else if c == 'u' {
      text := HtmlEscape(AtMost(4, more));
      if text != "" {
        used := 4;
      } else {
        text := "\\u";
      }
    }
  }

  lemma EscapeRead(value: string, i: nat, text: string, used: nat)
    requires i < |value| && used < |value| - i && (text, used) == ReplacementOf(value[i], value[i + 1..])
    ensures Unescape("\\" + value[i..]) == Prepend(text, Unescape(value[i + 1 + used..]))
  {
    var left := "\\" + value[i..];
    assert left[1] == value[i] && left[2..] == value[i + 1..];
    assert left[2 + used..] == value[i + 1 + used..];
  }

  lemma CharRead(value: string, i: nat)
    requires i < |value|
    ensures value[i] != '"' && value[i] != '\\' ==> Unescape(value[i..]) == Prepend([value[i]], Unescape(value[i + 1..]))
    ensures value[i] == '"' ==> Unescape(value[i..]) == Some("")
    ensures value[i] == '\\' ==> value[i..] == "\\" + value[i + 1..]
  {
    assert value[i..][1..] == value[i + 1..];
  }

  // awk's loop: one character at a time, remembering whether the last one was a backslash.
  method EmitUnescaped(value: string) returns (printed: Option<string>)
    ensures printed == Unescape(value)
  {
    var out, escaped, i := "", false, 0;
    PrependNothing(Unescape(value));
    assert value[0..] == value;
    while i < |value|
      invariant 0 <= i <= |value|
      invariant Unescape(value) == Prepend(out, Unescape(if escaped then "\\" + value[i..] else value[i..]))
    {
      var c := value[i];
      if escaped {
        var text, used := Replacement(c, value[i + 1..]);
        EscapeRead(value, i, text, used);
        i := i + used;
        PrependTwice(out, text, Unescape(value[i + 1..]));
        out, escaped := out + text, false;
      } else {
        CharRead(value, i);
        if c == '\\' {
          escaped := true;
        } else if c == '"' {
          assert out + "" == out;
          return Some(out);
        } else {
          PrependTwice(out, [c], Unescape(value[i + 1..]));
          out := out + [c];
        }
      }
      i := i + 1;
    }
    return None;
  }

  lemma PrependNothing(r: Option<string>)
    ensures Prepend("", r) == r
  {
    if r.Some? {
      assert "" + r.value == r.value;
    }
  }

  lemma PrependTwice(a: string, b: string, r: Option<string>)
    ensures Prepend(a, Prepend(b, r)) == Prepend(a + b, r)
  {
    if r.Some? {
      assert a + (b + r.value) == (a + b) + r.value;
    }
  }

  // What the shell variable holds after status_field has run on the line.
  function ReadText(line: string, key: string): string {
    var at := IndexOf(line, Key(key) + "\"");
    if at.None? then "" else ReadFrom(line[at.value + |key| + 4..])
  }

  function ReadFrom(s: string): string {
    var text := Unescape(s);
    if text.None? then "" else StripNewlines(text.value)
  }

  // The last place where the key is followed by a digit: sed's leading ".*" is greedy.
  function LastNumber(line: string, key: string): Option<string> {
    if line == "" then None
    else
      var later := LastNumber(line[1..], key);
      if later.Some? then later
      else if StartsWith(line, Key(key)) && Digits(line[|key| + 3..]) != "" then Some(Digits(line[|key| + 3..]))
      else None
  }

  function ReadPort(line: string, key: string): string {
    var number := LastNumber(line, key);
    if number.Some? then number.value else ""
  }
}

// Reading back what was written.
module StatusRoundTrip {
  import opened Text
  import opened StatusLine

  // ---- The writer, character by character ----

  function Escaped(c: char): string {
    if c == '\\' then "\\\\"
    else if c == '"' then "\\\""
    else if c == '\r' then "\\r"
    else if c == '\t' then "\\t"
    else if c == '\n' then "\\n"
    else [c]
  }

  function Flat(s: string): string {
    if s == "" then "" else Escaped(s[0]) + Flat(s[1..])
  }

  function Chop(s: string): string {
    if s != "" && s[|s| - 1] == '\n' then s[..|s| - 1] else s
  }

  lemma {:induction false} GsubAppend(c: char, with: string, a: string, b: string)
    ensures Gsub(c, with, a + b) == Gsub(c, with, a) + Gsub(c, with, b)
  {
    if a == "" {
      assert a + b == b;
    } else {
      assert (a + b)[1..] == a[1..] + b;
      GsubAppend(c, with, a[1..], b);
    }
  }

  lemma EscapeRecordAppend(a: string, b: string)
    ensures EscapeRecord(a + b) == EscapeRecord(a) + EscapeRecord(b)
  {
    GsubAppend('\\', "\\\\", a, b);
    var a1, b1 := Gsub('\\', "\\\\", a), Gsub('\\', "\\\\", b);
    GsubAppend('"', "\\\"", a1, b1);
    var a2, b2 := Gsub('"', "\\\"", a1), Gsub('"', "\\\"", b1);
    GsubAppend('\r', "\\r", a2, b2);
    GsubAppend('\t', "\\t", Gsub('\r', "\\r", a2), Gsub('\r', "\\r", b2));
  }

  lemma GsubOne(c: char, with: string, d: char)
    ensures Gsub(c, with, [d]) == if d == c then with else [d]
  {
    assert [d][1..] == "";
    assert with + "" == with;
  }

  lemma GsubTwo(c: char, with: string, d: char, e: char)
    requires c != d && c != e
    ensures Gsub(c, with, [d, e]) == [d, e]
  {
    assert [d, e] == [d] + [e];
    GsubAppend(c, with, [d], [e]);
    GsubOne(c, with, d);
    GsubOne(c, with, e);
  }

  // No substitution touches what an earlier one produced.
  lemma EscapeRecordOne(c: char)
    requires c != '\n'
    ensures EscapeRecord([c]) == Escaped(c)
  {
    GsubOne('\\', "\\\\", c);
    GsubOne('"', "\\\"", c);
    GsubOne('\r', "\\r", c);
    GsubOne('\t', "\\t", c);
    GsubTwo('"', "\\\"", '\\', '\\');
    GsubTwo('\r', "\\r", '\\', '\\');
    GsubTwo('\t', "\\t", '\\', '\\');
    GsubTwo('\r', "\\r", '\\', '"');
    GsubTwo('\t', "\\t", '\\', '"');
    GsubTwo('\t', "\\t", '\\', 'r');
  }

  lemma EscapeRecordCons(c: char, more: string)
    requires c != '\n'
    ensures EscapeRecord([c] + more) == Escaped(c) + EscapeRecord(more)
  {
    EscapeRecordAppend([c], more);
    EscapeRecordOne(c);
  }

  function Continued(first: string, more: seq<string>): string {
    first + if more == [] then "" else "\\n" + Join(more)
  }

  lemma JoinMore(record: string, more: seq<string>)
    ensures Join([record] + more) == Continued(EscapeRecord(record), more)
  {
    assert ([record] + more)[1..] == more;
  }

  lemma JoinLonger(c: char, more: seq<string>)
    requires c != '\n' && more != []
    ensures Join([[c] + more[0]] + more[1..]) == Escaped(c) + Join(more)
  {
    EscapeRecordCons(c, more[0]);
    JoinMore([c] + more[0], more[1..]);
    JoinMore(more[0], more[1..]);
    assert more == [more[0]] + more[1..];
    ContinuedLonger(Escaped(c), EscapeRecord(more[0]), more[1..]);
  }

  lemma ContinuedLonger(a: string, b: string, more: seq<string>)
    ensures Continued(a + b, more) == a + Continued(b, more)
  {
  }

  lemma FlatCons(c: char, t: string)
    ensures Flat([c] + t) == Escaped(c) + Flat(t)
  {
    assert ([c] + t)[1..] == t;
  }

  lemma ChopCons(c: char, t: string)
    ensures Chop([c] + t) == if t == "" && c == '\n' then "" else [c] + Chop(t)
  {
    assert t != "" ==> ([c] + t)[..|t|] == [c] + t[..|t| - 1];
    assert t == "" ==> [c] + t == [c] + Chop(t);
  }

  // The substitutions and the joining of records amount to one code per character; a
  // single newline at the end of the input is not seen by awk.
  lemma {:induction false} JsonEscapeIsFlat(s: string)
    ensures JsonEscape(s) == Flat(Chop(s))
    decreases |s|
  {
    if s != "" {
      var c, t := s[0], s[1..];
      assert s == [c] + t;
      ChopCons(c, t);
      FlatCons(c, Chop(t));
      JsonEscapeIsFlat(t);
      if c == '\n' {
        JoinMore("", Records(t));
      } else if t == "" {
        EscapeRecordOne(c);
        assert Escaped(c) + Flat(Chop("")) == Escaped(c);
        assert s == [c] && Records(s) == [s] && Join([s]) == EscapeRecord(s);
      } else if t[0] == '\n' {
        RecordBreak(c, t);
      } else {
        JoinLonger(c, Records(t));
      }
    }
  }

  lemma RecordBreak(c: char, t: string)
    requires c != '\n' && t != "" && t[0] == '\n'
    ensures Join(Records([c] + t)) == Escaped(c) + Join(Records(t))
  {
    var more := Records(t[1..]);
    assert Records([c] + t) == [[c]] + more by {
      assert ([c] + t)[0] == c && ([c] + t)[1] == '\n' && ([c] + t)[2..] == t[1..];
    }
    assert Records(t) == [""] + more;
    EscapeRecordOne(c);
    JoinMore([c], more);
    JoinMore("", more);
    ContinuedLonger(Escaped(c), "", more);
    assert Escaped(c) + "" == Escaped(c);
    assert EscapeRecord("") == "";
  }

  lemma {:induction false} FlatHasNoNewline(s: string)
    ensures '\n' !in Flat(s)
    ensures StripNewlines(Flat(s)) == Flat(s)
  {
    if s != "" {
      FlatHasNoNewline(s[1..]);
    }
  }

  lemma PrintedText(value: string)
    ensures StripNewlines(JsonEscape(value)) == Flat(Chop(value))
  {
    JsonEscapeIsFlat(value);
    FlatHasNoNewline(Chop(value));
  }

  // ---- The reader undoes it ----

  lemma UnescapePlain(c: char, tail: string)
    requires c != '"' && c != '\\'
    ensures Unescape([c] + tail) == Prepend([c], Unescape(tail))
  {
    assert ([c] + tail)[1..] == tail;
  }

  // A backslash and a character that takes no more with it.
  lemma UnescapeTwo(c: char, tail: string)
    requires c != 'u'
    ensures Unescape(['\\', c] + tail)
         == Prepend(if c == 'n' then "\n" else if c == 'r' then "\r" else if c == 't' then "\t" else [c], Unescape(tail))
  {
    assert (['\\', c] + tail)[2..] == tail;
  }

  // One code and the character it stands for.
  lemma UnescapeOne(c: char, tail: string)
    ensures Unescape(Escaped(c) + tail) == Prepend([c], Unescape(tail))
  {
    var e := Escaped(c);
    if |e| == 1 {
      UnescapePlain(c, tail);
    } else {
      UnescapeTwo(e[1], tail);
      assert e == ['\\', e[1]];
    }
  }

  lemma {:induction false} UnescapeFlat(s: string, rest: string)
    ensures Unescape(Flat(s) + "\"" + rest) == Some(s)
  {
    if s == "" {
      assert (Flat(s) + "\"" + rest)[0] == '"';
    } else {
      var tail := Flat(s[1..]) + "\"" + rest;
      UnescapeFlat(s[1..], rest);
      UnescapeOne(s[0], tail);
      assert Flat(s) + "\"" + rest == Escaped(s[0]) + tail;
      assert [s[0]] + s[1..] == s;
    }
  }

  lemma StripChopped(s: string)
    ensures StripNewlines(Chop(s)) == StripNewlines(s)
  {
  }

  // ---- Where keys occur in the line ----

  predicate IsKeyChar(c: char) {
    'a' <= c <= 'z' || c == '_'
  }

  predicate PlainKey(k: string) {
    k != "" && forall i :: 0 <= i < |k| ==> IsKeyChar(k[i])
  }

  predicate Closes(post: string) {
    post != "" && (post[0] == ',' || post[0] == '}')
  }

  predicate QuotesEscaped(e: string) {
    forall i :: 0 <= i < |e| && e[i] == '"' ==> i > 0 && e[i - 1] == '\\'
  }

  lemma {:induction false} FlatQuotesEscaped(s: string)
    ensures QuotesEscaped(Flat(s))
  {
    if s != "" {
      FlatQuotesEscaped(s[1..]);
      assert |Escaped(s[0])| <= 2;
      assert forall i :: |Escaped(s[0])| <= i < |Flat(s)| ==> Flat(s)[i] == Flat(s[1..])[i - |Escaped(s[0])|];
    }
  }

  lemma Mismatch(t: string, p: string, i: nat, n: nat)
    requires n < |p| && (i + n < |t| ==> t[i + n] != p[n])
    ensures !OccursAt(t, p, i)
  {
    assert i + |p| <= |t| ==> t[i..i + |p|][n] == t[i + n];
  }

  // From the start of a quoted value to just behind it, no text reads as the rest of a key.
  lemma NoKeyInValue(e: string, post: string, k: string, u: nat)
    requires QuotesEscaped(e) && Closes(post) && PlainKey(k) && u <= |e| + 1
    ensures !OccursAt(e + "\"" + post, k + "\":", u)
  {
    var t, p, q := e + "\"" + post, k + "\":", u + |k|;
    assert t[|e|] == '"' && t[|e| + 1] == post[0];
    assert p[|k|] == '"' && p[|k| + 1] == ':';
    if u == |e| + 1 {
      Mismatch(t, p, u, 0);
    } else if q > |e| {
      Mismatch(t, p, u, |e| - u);
    } else if q == |e| {
      Mismatch(t, p, u, |k| + 1);
    } else if e[q] == '"' {
      Mismatch(t, p, u, |k| - 1);
    } else {
      Mismatch(t, p, u, |k|);
    }
  }

  lemma SuffixOccurs(t: string, p: string, i: nat, a: nat)
    requires a <= |p|
    ensures OccursAt(t, p, i) ==> OccursAt(t, p[a..], i + a)
  {
    if OccursAt(t, p, i) {
      assert t[i + a..i + a + |p[a..]|] == t[i..i + |p|][a..];
    }
  }

  lemma ShiftOccurs(a: string, b: string, p: string, i: nat)
    requires i >= |a|
    ensures OccursAt(a + b, p, i) <==> OccursAt(b, p, i - |a|)
  {
    if i + |p| <= |a + b| {
      assert (a + b)[i..i + |p|] == b[i - |a|..i - |a| + |p|];
    }
  }

  // A key occurs in the text of a key only if it is that key, at the start.
  lemma KeyInKey(own: string, more: string, k: string, i: nat)
    requires PlainKey(own) && PlainKey(k) && i < |own| + 3
    ensures OccursAt(Key(own) + more, Key(k), i) <==> i == 0 && own == k
  {
    var t, p := Key(own) + more, Key(k);
    assert forall n :: 0 <= n < |own| ==> t[n + 1] == own[n];
    assert forall n :: 0 <= n < |k| ==> p[n + 1] == k[n];
    assert t[|own| + 1] == '"' && t[|own| + 2] == ':' && p[|k| + 1] == '"';
    if i == 0 && own == k {
      assert t[..|p|] == p;
    } else if i == 0 {
      if |k| < |own| {
        Mismatch(t, p, 0, |k| + 1);
      } else if |own| < |k| {
        Mismatch(t, p, 0, |own| + 1);
      } else {
        var n :| 0 <= n < |k| && own[n] != k[n];
        Mismatch(t, p, 0, n + 1);
      }
    } else if i == |own| + 1 {
      Mismatch(t, p, i, 1);
    } else {
      Mismatch(t, p, i, 0);
    }
  }

  lemma KeyBehindQuote(start: string, e: string, post: string, k: string, i: nat)
    requires QuotesEscaped(e) && Closes(post) && PlainKey(k) && |start| <= i + 1 <= |start| + |e| + 1
    ensures !OccursAt(start + (e + "\"" + post), Key(k), i)
  {
    assert Key(k)[1..] == k + "\":";
    SuffixOccurs(start + (e + "\"" + post), Key(k), i, 1);
    ShiftOccurs(start, e + "\"" + post, k + "\":", i + 1);
    NoKeyInValue(e, post, k, i + 1 - |start|);
  }

  lemma KeyInText(own: string, printed: string, e: string, post: string, k: string, i: nat)
    requires printed == "\"" + e + "\"" && QuotesEscaped(e) && PlainKey(k) && Closes(post)
    requires |own| <= i < |own + printed|
    ensures !OccursAt(own + printed + post, Key(k), i)
  {
    KeyBehindQuote(own + "\"", e, post, k, i);
    assert own + printed + post == (own + "\"") + (e + "\"" + post);
  }

  // ---- The whole line, as keys and printed values ----

  datatype Piece = Piece(key: string, printed: string)

  // A printed value: digits, or a quoted text in which every quote is escaped.
  predicate IsPrinted(printed: string) {
    AllDigits(printed)
    || (|printed| > 1 && printed[0] == '"' == printed[|printed| - 1] && QuotesEscaped(printed[1..|printed| - 1]))
  }

  predicate PiecesOk(ps: seq<Piece>) {
    && (forall i :: 0 <= i < |ps| ==> PlainKey(ps[i].key) && IsPrinted(ps[i].printed))
    && (forall i, j :: 0 <= i < j < |ps| ==> ps[i].key != ps[j].key)
  }

  function Own(p: Piece): string {
    Key(p.key) + p.printed
  }

  // What follows the first piece, to the end of the line.
  function Behind(ps: seq<Piece>): (post: string)
    requires ps != []
    ensures Closes(post)
    decreases |ps|, 0
  {
    if |ps| == 1 then "}" else "," + TextOf(ps[1..])
  }

  // The line without its first character.
  function TextOf(ps: seq<Piece>): string
    requires ps != []
    decreases |ps|, 1
  {
    Own(ps[0]) + Behind(ps)
  }

  // Where the text of piece j starts.
  function Start(ps: seq<Piece>, j: nat): nat
    requires j < |ps|
  {
    if j == 0 then 0 else |Own(ps[0])| + 1 + Start(ps[1..], j - 1)
  }

  // A key occurs in a piece only if it is the piece's key, at the start.
  lemma KeyInPiece(p: Piece, post: string, k: string, i: nat)
    requires PlainKey(p.key) && IsPrinted(p.printed) && PlainKey(k) && Closes(post) && i < |Own(p)|
    ensures OccursAt(Own(p) + post, Key(k), i) <==> i == 0 && p.key == k
  {
    var t, a := Own(p) + post, |p.key| + 3;
    assert t == Key(p.key) + (p.printed + post);
    if i < a {
      KeyInKey(p.key, p.printed + post, k, i);
    } else if AllDigits(p.printed) {
      assert t[i] == p.printed[i - a] && IsDigit(p.printed[i - a]);
      Mismatch(t, Key(k), i, 0);
    } else {
      var e := p.printed[1..|p.printed| - 1];
      assert p.printed == "\"" + e + "\"";
      KeyInText(Key(p.key), p.printed, e, post, k, i);
    }
  }

  // Behind a piece's own text, a key can occur only in the pieces that follow.
  lemma PastPiece(own: string, behind: string, body: string, p: string, i: nat)
    requires i >= |own| && p != "" && p[0] == '"' && (behind == "}" || behind == "," + body)
    ensures OccursAt(own + behind, p, i) <==> behind != "}" && i > |own| && OccursAt(body, p, i - |own| - 1)
  {
    if i == |own| {
      assert (own + behind)[|own|] == behind[0];
      Mismatch(own + behind, p, i, 0);
    } else if behind == "}" {
      Mismatch(own + behind, p, i, 0);
    } else {
      assert own + behind == (own + ",") + body;
      ShiftOccurs(own + ",", body, p, i);
    }
  }

  // A key occurs as the first piece's key, or in the pieces that follow.
  lemma KeyInPieces(ps: seq<Piece>, k: string, i: nat)
    requires ps != [] && PlainKey(ps[0].key) && IsPrinted(ps[0].printed) && PlainKey(k)
    ensures OccursAt(TextOf(ps), Key(k), i)
       <==> || (i == 0 && ps[0].key == k)
            || (|ps| > 1 && i > |Own(ps[0])| && OccursAt(TextOf(ps[1..]), Key(k), i - |Own(ps[0])| - 1))
  {
    if i < |Own(ps[0])| {
      KeyInPiece(ps[0], Behind(ps), k, i);
    } else {
      PastPiece(Own(ps[0]), Behind(ps), if |ps| > 1 then TextOf(ps[1..]) else "", Key(k), i);
    }
  }

  lemma {:induction false} KeyInBody(ps: seq<Piece>, j: nat, i: nat)
    requires PiecesOk(ps) && j < |ps|
    ensures OccursAt(TextOf(ps), Key(ps[j].key), i) <==> i == Start(ps, j)
    decreases |ps|
  {
    var k, n := ps[j].key, |Own(ps[0])|;
    KeyInPieces(ps, k, i);
    if i > n && |ps| > 1 {
      if j > 0 {
        KeyInBody(ps[1..], j - 1, i - n - 1);
      } else {
        NoKeyInBody(ps[1..], k, i - n - 1);
      }
    }
  }

  lemma {:induction false} NoKeyInBody(ps: seq<Piece>, k: string, i: nat)
    requires ps != [] && PiecesOk(ps) && PlainKey(k) && forall j :: 0 <= j < |ps| ==> ps[j].key != k
    ensures !OccursAt(TextOf(ps), Key(k), i)
    decreases |ps|
  {
    var n := |Own(ps[0])|;
    KeyInPieces(ps, k, i);
    if i > n && |ps| > 1 {
      NoKeyInBody(ps[1..], k, i - n - 1);
    }
  }

  lemma DropShift(a: string, b: string, n: nat)
    requires |a| <= n <= |a| + |b|
    ensures (a + b)[n..] == b[n - |a|..]
  {
  }

  lemma {:induction false} TextAtStart(ps: seq<Piece>, j: nat) returns (post: string)
    requires j < |ps|
    ensures Closes(post) && Start(ps, j) <= |TextOf(ps)|
    ensures TextOf(ps)[Start(ps, j)..] == Own(ps[j]) + post
    decreases |ps|
  {
    if j == 0 {
      post := Behind(ps);
    } else {
      post := TextAtStart(ps[1..], j - 1);
      assert TextOf(ps) == (Own(ps[0]) + ",") + TextOf(ps[1..]);
      DropShift(Own(ps[0]) + ",", TextOf(ps[1..]), Start(ps, j));
    }
  }

  lemma BehindBrace(body: string, p: string, i: nat)
    requires p != "" && p[0] == '"'
    ensures OccursAt("{" + body, p, i) <==> i > 0 && OccursAt(body, p, i - 1)
  {
    if i == 0 {
      Mismatch("{" + body, p, 0, 0);
    } else {
      ShiftOccurs("{", body, p, i);
    }
  }

  // A key occurs in the line once, whatever the values contain.
  lemma KeyOccursOnceAt(ps: seq<Piece>, j: nat, i: nat)
    requires PiecesOk(ps) && j < |ps|
    ensures OccursAt("{" + TextOf(ps), Key(ps[j].key), i) <==> i == 1 + Start(ps, j)
  {
    BehindBrace(TextOf(ps), Key(ps[j].key), i);
    if i > 0 {
      KeyInBody(ps, j, i - 1);
    }
  }

  // ---- The whole line, as fields ----

  predicate KeysOk(fields: seq<Field>) {
    && (forall i :: 0 <= i < |fields| ==> PlainKey(fields[i].key))
    && (forall i, j :: 0 <= i < j < |fields| ==> fields[i].key != fields[j].key)
  }

  function Pieces(fields: seq<Field>): (ps: seq<Piece>)
    ensures |ps| == |fields| && forall i :: 0 <= i < |ps| ==> ps[i] == Piece(fields[i].key, Printed(fields[i]))
  {
    seq(|fields|, i requires 0 <= i < |fields| => Piece(fields[i].key, Printed(fields[i])))
  }

  lemma {:induction false} LineOfPieces(fields: seq<Field>)
    requires fields != []
    ensures Body(fields) + "}" == TextOf(Pieces(fields))
    decreases |fields|
  {
    var ps := Pieces(fields);
    if |fields| > 1 {
      LineOfPieces(fields[1..]);
      assert ps[1..] == Pieces(fields[1..]);
      assert Body(fields) + "}" == Own(ps[0]) + ("," + (Body(fields[1..]) + "}"));
    }
  }

  lemma FieldIsPrinted(f: Field)
    ensures IsPrinted(Printed(f))
  {
    if f.TextField? {
      PrintedText(f.value);
      FlatQuotesEscaped(Chop(f.value));
      QuotedIsPrinted(Flat(Chop(f.value)));
    }
  }

  lemma QuotedIsPrinted(e: string)
    requires QuotesEscaped(e)
    ensures IsPrinted("\"" + e + "\"")
  {
    assert ("\"" + e + "\"")[1..|e| + 1] == e;
  }

  lemma PiecesAreOk(fields: seq<Field>)
    requires KeysOk(fields)
    ensures PiecesOk(Pieces(fields))
  {
    forall i | 0 <= i < |fields| ensures IsPrinted(Pieces(fields)[i].printed) {
      FieldIsPrinted(fields[i]);
    }
  }

  // The key of a field occurs in the line once, whatever the fields contain.
  lemma KeyOccursOnce(fields: seq<Field>, j: nat, i: nat)
    requires KeysOk(fields) && j < |fields|
    ensures OccursAt(Line(fields), Key(fields[j].key), i) <==> i == 1 + Start(Pieces(fields), j)
  {
    LineOfPieces(fields);
    PiecesAreOk(fields);
    KeyOccursOnceAt(Pieces(fields), j, i);
  }

  // Where a key followed by a quote is found, and what follows it.
  lemma FoundAt(line: string, k: string, at: nat, text: string)
    requires at <= |line| && line[at..] == (Key(k) + "\"") + text
    requires forall i: nat :: OccursAt(line, Key(k), i) <==> i == at
    ensures IndexOf(line, Key(k) + "\"") == Some(at) && at + |k| + 4 <= |line| && line[at + |k| + 4..] == text
  {
    StartsAt(line, Key(k) + "\"", text, at);
    OnlyThere(line, Key(k), "\"", at);
  }

  lemma ReadFromIs(v: string, post: string)
    ensures ReadFrom(Flat(v) + "\"" + post) == StripNewlines(v)
  {
    UnescapeFlat(v, post);
  }

  lemma ReadTextAt(line: string, k: string, at: nat, text: string)
    requires at <= |line| && line[at..] == (Key(k) + "\"") + text
    requires forall i: nat :: OccursAt(line, Key(k), i) <==> i == at
    ensures ReadText(line, k) == ReadFrom(text)
  {
    FoundAt(line, k, at, text);
  }

  // What stands where the key of a piece is.
  lemma PieceAt(ps: seq<Piece>, j: nat) returns (post: string)
    requires PiecesOk(ps) && j < |ps|
    ensures var line, at := "{" + TextOf(ps), 1 + Start(ps, j);
            && Closes(post) && at <= |line| && line[at..] == Key(ps[j].key) + ps[j].printed + post
            && forall i: nat :: OccursAt(line, Key(ps[j].key), i) <==> i == at
  {
    post := TextAtStart(ps, j);
    DropShift("{", TextOf(ps), 1 + Start(ps, j));
    forall i: nat ensures OccursAt("{" + TextOf(ps), Key(ps[j].key), i) <==> i == 1 + Start(ps, j) {
      KeyOccursOnceAt(ps, j, i);
    }
  }

  // A quoted text is read from behind its opening quote.
  lemma ReadsQuoted(ps: seq<Piece>, j: nat, e: string) returns (post: string)
    requires PiecesOk(ps) && j < |ps| && ps[j].printed == "\"" + e + "\""
    ensures ReadText("{" + TextOf(ps), ps[j].key) == ReadFrom(e + "\"" + post)
  {
    post := PieceAt(ps, j);
    RegroupQuotes(Key(ps[j].key), e, post, ps[j].printed);
    ReadTextAt("{" + TextOf(ps), ps[j].key, 1 + Start(ps, j), e + "\"" + post);
  }

  lemma ReadsDigits(ps: seq<Piece>, j: nat)
    requires PiecesOk(ps) && j < |ps| && ps[j].printed != "" && AllDigits(ps[j].printed)
    ensures ReadPort("{" + TextOf(ps), ps[j].key) == ps[j].printed
  {
    var post := PieceAt(ps, j);
    ReadPortAt("{" + TextOf(ps), ps[j].key, 1 + Start(ps, j), ps[j].printed, post);
  }

  // Every text field is read back as it was written, but for newlines at its end.
  lemma ReadsBackText(fields: seq<Field>, j: nat)
    requires KeysOk(fields) && j < |fields| && fields[j].TextField?
    ensures ReadText(Line(fields), fields[j].key) == StripNewlines(fields[j].value)
  {
    var v := fields[j].value;
    LineOfPieces(fields);
    PiecesAreOk(fields);
    PrintedText(v);
    var post := ReadsQuoted(Pieces(fields), j, Flat(Chop(v)));
    ReadFromIs(Chop(v), post);
    StripChopped(v);
  }

  lemma RegroupQuotes(key: string, e: string, post: string, printed: string)
    requires printed == "\"" + e + "\""
    ensures key + printed + post == (key + "\"") + (e + "\"" + post)
  {
  }

  lemma StartsAt(line: string, p: string, text: string, at: nat)
    requires at <= |line| && line[at..] == p + text
    ensures OccursAt(line, p, at) && at + |p| <= |line| && line[at + |p|..] == text
  {
    assert line[at..at + |p|] == line[at..][..|p|];
    assert line[at + |p|..] == line[at..][|p|..];
  }

  lemma OnlyThere(line: string, p: string, more: string, at: nat)
    requires forall i: nat :: OccursAt(line, p, i) <==> i == at
    requires OccursAt(line, p + more, at)
    ensures IndexOf(line, p + more) == Some(at)
  {
    forall i: nat | OccursAt(line, p + more, i) ensures i == at {
      assert line[i..i + |p|] == line[i..i + |p + more|][..|p|];
      assert OccursAt(line, p, i);
    }
    assert OccursAt(line, p + more, at);
  }

  lemma ReadPortAt(line: string, k: string, at: nat, port: string, post: string)
    requires AllDigits(port) && port != "" && Closes(post)
    requires at <= |line| && line[at..] == Key(k) + port + post
    requires forall i: nat :: OccursAt(line, Key(k), i) <==> i == at
    ensures ReadPort(line, k) == port
  {
    assert line[at..] == Key(k) + (port + post);
    DigitsOfNumeral(port, post);
    LastNumberIs(line, k, at, port + post);
  }

  // Every port field is read back as the number that was written.
  lemma ReadsBackPort(fields: seq<Field>, j: nat)
    requires KeysOk(fields) && j < |fields| && fields[j].PortField?
    ensures ReadPort(Line(fields), fields[j].key) == StatusPort(fields[j].value)
  {
    LineOfPieces(fields);
    PiecesAreOk(fields);
    ReadsDigits(Pieces(fields), j);
  }

  function Zeros(k: nat): (z: string)
    ensures |z| == k && AllDigits(z)
  {
    seq(k, _ => '0')
  }

  lemma {:induction false} LeadingZeros(k: nat, d: string)
    requires AllDigits(d)
    ensures AllDigits(Zeros(k) + d) && Value(Zeros(k) + d) == Value(d)
  {
    if d == "" {
      ZerosAreNothing(k);
      assert Zeros(k) + d == Zeros(k);
    } else {
      var n := |d| - 1;
      LeadingZeros(k, d[..n]);
      assert (Zeros(k) + d)[..k + n] == Zeros(k) + d[..n];
    }
  }

  lemma {:induction false} ZerosAreNothing(k: nat)
    ensures Value(Zeros(k)) == 0
  {
    if k > 0 {
      ZerosAreNothing(k - 1);
      assert Zeros(k)[..k - 1] == Zeros(k - 1);
    }
  }

  // Up to five digits, the numeral of a port is kept and loses its leading zeros.
  lemma PortIsKept(n: nat, k: nat)
    requires n <= 65535
    ensures StatusPort(Dec(n)) == Dec(n)
    ensures StatusPort(Zeros(k) + Dec(n)) == if k + |Dec(n)| <= 5 then Dec(n) else "0"
  {
    ValueOfDec(n);
    LeadingZeros(k, Dec(n));
    FiveDigits(n);
  }

  lemma FiveDigits(n: nat)
    requires n <= 99999
    ensures |Dec(n)| <= 5
  {
    assert n / 10 / 10 / 10 / 10 < 10;
    assert |Dec(n / 10 / 10 / 10 / 10)| == 1;
    assert |Dec(n / 10 / 10 / 10)| <= 2;
    assert |Dec(n / 10 / 10)| <= 3;
    assert |Dec(n / 10)| <= 4;
  }

  // A text of digits is zeros and a numeral.
  lemma {:induction false} ZerosAndNumeral(s: string) returns (k: nat)
    requires AllDigits(s) && s != ""
    ensures s == Zeros(k) + Dec(Value(s))
  {
    if |s| > 1 && s[0] == '0' {
      var j := ZerosAndNumeral(s[1..]);
      k := j + 1;
      LeadingZeros(1, s[1..]);
      assert s == Zeros(1) + s[1..];
      assert Zeros(k) == Zeros(1) + Zeros(j);
    } else {
      k := 0;
      DecOfValue(s);
      assert Zeros(0) + s == s;
    }
  }

  // What is printed for a text is the numeral of its value if it has one to five digits
  // and is worth at most 65535, and "0" in every other case.
  lemma PrintsPort(port: string)
    ensures if port != "" && AllDigits(port) && |port| <= 5 && Value(port) <= 65535
            then StatusPort(port) == Dec(Value(port)) else StatusPort(port) == "0"
  {
  }

  // A port that is a number is read back as that number.
  lemma ReadsBackNumber(fields: seq<Field>, j: nat, n: nat)
    requires KeysOk(fields) && j < |fields| && fields[j].PortField? && fields[j].value == Dec(n) && n <= 65535
    ensures ReadPort(Line(fields), fields[j].key) == Dec(n)
  {
    ReadsBackPort(fields, j);
    PortIsKept(n, 0);
  }

  lemma {:induction false} LastNumberIs(line: string, k: string, at: nat, text: string)
    requires at <= |line| && line[at..] == Key(k) + text && Digits(text) != ""
    requires forall i: nat :: OccursAt(line, Key(k), i) <==> i == at
    ensures LastNumber(line, k) == Some(Digits(text))
    decreases at
  {
    if at > 0 {
      forall i: nat ensures OccursAt(line[1..], Key(k), i) <==> i == at - 1 {
        OccursAtTail(line, Key(k), i + 1);
      }
      LastNumberIs(line[1..], k, at - 1, text);
    } else {
      forall i: nat ensures !OccursAt(line[1..], Key(k), i) {
        OccursAtTail(line, Key(k), i + 1);
      }
      NoLastNumber(line[1..], k);
      DropShift(Key(k), text, |k| + 3);
    }
  }

  lemma {:induction false} NoLastNumber(line: string, k: string)
    requires forall i: nat :: !OccursAt(line, Key(k), i)
    ensures LastNumber(line, k) == None
  {
    if line != "" {
      forall i: nat ensures !OccursAt(line[1..], Key(k), i) {
        OccursAtTail(line, Key(k), i + 1);
      }
      NoLastNumber(line[1..], k);
    }
  }

  // The line qnatter_write_status_json prints, field by field.
  lemma StatusRoundTrip(instance: string, protocol: string, innerIp: string, innerPort: string,
                        outerIp: string, outerPort: string, now: string, message: string)
    ensures var line := Line(StatusFields(instance, protocol, innerIp, innerPort, outerIp, outerPort, now, message));
            && ReadText(line, "instance") == StripNewlines(instance)
            && ReadText(line, "protocol") == StripNewlines(protocol)
            && ReadText(line, "inner_ip") == StripNewlines(innerIp)
            && ReadPort(line, "inner_port") == StatusPort(innerPort)
            && ReadText(line, "outer_ip") == StripNewlines(outerIp)
            && ReadPort(line, "outer_port") == StatusPort(outerPort)
            && ReadText(line, "updated_at") == StripNewlines(now)
            && ReadText(line, "message") == StripNewlines(message)
  {
    var fields := StatusFields(instance, protocol, innerIp, innerPort, outerIp, outerPort, now, message);
    assert KeysOk(fields);
    ReadsBackText(fields, 0);
    ReadsBackText(fields, 1);
    ReadsBackText(fields, 2);
    ReadsBackPort(fields, 3);
    ReadsBackText(fields, 4);
    ReadsBackPort(fields, 5);
    ReadsBackText(fields, 6);
    ReadsBackText(fields, 7);
  }

  // What is lost is exactly a newline at the end.
  lemma StripsOnlyTrailingNewlines(s: string)
    ensures StripNewlines(s) == s <==> s == "" || s[|s| - 1] != '\n'
    ensures |StripNewlines(s)| <= |s|
  {
  }
}
