/** Content-Length framing: the frames the bridge writes and the reader that takes them off a byte stream. */
module Framing {
  import opened Text

  type Byte = b: int | 0 <= b < 256
  type Bytes = seq<Byte>

  const CR: Byte := 13
  const LF: Byte := 10
  const COLON: Byte := 58

  predicate IsLf(b: Byte) { b == LF }
  predicate IsColon(b: Byte) { b == COLON }

  /** What `bytes.strip` removes. */
  predicate IsBlank(b: Byte) { 9 <= b <= 13 || b == 32 }

  function LowerByte(b: Byte): Byte { if 65 <= b <= 90 then b + 32 else b }

  function LowerBytes(s: Bytes): (r: Bytes)
    ensures |r| == |s|
  {
    seq(|s|, i requires 0 <= i < |s| => LowerByte(s[i]))
  }

  /** "Content-Length" and its lower-case form. */
  const CONTENT_LENGTH: Bytes := [67, 111, 110, 116, 101, 110, 116, 45, 76, 101, 110, 103, 116, 104]
  const LENGTH_KEY: Bytes := [99, 111, 110, 116, 101, 110, 116, 45, 108, 101, 110, 103, 116, 104]

  // ---------- Numbers ----------

  function DecimalBytes(n: nat): (s: Bytes)
    ensures s != [] && forall i :: 0 <= i < |s| ==> 48 <= s[i] <= 57
  {
    var ds := Digits(n);
    seq(|ds|, i requires 0 <= i < |ds| => 48 + ds[i] as int)
  }

  /** Digits, with single underscores allowed between them. */
  function ParseUnsigned(s: Bytes): Option<nat> {
    if s == [] || !(48 <= s[|s| - 1] <= 57) then None
    else if |s| == 1 then Some(s[0] - 48)
    else
      var front := ParseUnsigned(if s[|s| - 2] == 95 then s[..|s| - 2] else s[..|s| - 1]);
      if front.None? then None else Some(10 * front.value + (s[|s| - 1] - 48))
  }

  /** Python's `int` on bytes: blanks around, a sign, digits. */
  function ParseInt(v: Bytes): Option<int> {
    var s := Strip(v, IsBlank);
    if s == [] then None
    else if s[0] == 43 || s[0] == 45 then
      var n := ParseUnsigned(s[1..]);
      if n.None? then None else Some(if s[0] == 45 then -(n.value as int) else n.value)
    else
      var n := ParseUnsigned(s);
      if n.None? then None else Some(n.value)
  }

  lemma {:induction false} ParseDigits(ds: seq<Digit>, s: Bytes)
    requires ds != [] && |s| == |ds| && forall i :: 0 <= i < |s| ==> s[i] == 48 + ds[i] as int
    ensures ParseUnsigned(s) == Some(Value(ds))
  {
    if |ds| == 1 {
      assert ds[..0] == [];
    } else {
      ParseDigits(ds[..|ds| - 1], s[..|s| - 1]);
    }
  }

  /** A run of digits is read as its value: no blanks to strip, no sign. */
  lemma ParsePlain(ds: seq<Digit>, s: Bytes)
    requires ds != [] && |s| == |ds| && forall i :: 0 <= i < |s| ==> s[i] == 48 + ds[i] as int
    ensures ParseInt(s) == Some(Value(ds))
  {
    assert [] + s + [] == s;
    StripUnique([], s, [], IsBlank);
    ParseDigits(ds, s);
  }

  lemma ParseDecimal(n: nat)
    ensures ParseInt(DecimalBytes(n)) == Some(n)
  {
    ParsePlain(Digits(n), DecimalBytes(n));
    ValueOfDigits(n);
  }

  lemma ParseStripped(v: Bytes, sign: Bytes, d: Bytes, n: nat)
    requires Strip(v, IsBlank) == sign + d && (sign == [] || sign == [43] || sign == [45])
    requires d != [] && 48 <= d[0] <= 57 && ParseUnsigned(d) == Some(n)
    ensures ParseInt(v) == Some(if sign == [45] then -(n as int) else n)
  {
    var s := sign + d;
    if sign == [] { assert s == d; } else { assert s[1..] == d && s[0] == sign[0]; }
  }

  /** Blanks, a sign and digits are read as the signed value. */
  lemma ParseSigned(a: Bytes, sign: Bytes, n: nat, b: Bytes)
    requires All(a, IsBlank) && All(b, IsBlank) && (sign == [] || sign == [43] || sign == [45])
    ensures ParseInt(a + (sign + DecimalBytes(n)) + b) == Some(if sign == [45] then -(n as int) else n)
  {
    var d := DecimalBytes(n);
    StripUnique(a, sign + d, b, IsBlank);
    ParseDigits(Digits(n), d);
    ValueOfDigits(n);
    ParseStripped(a + (sign + d) + b, sign, d, n);
  }

  predicate IsDecimalByte(b: Byte) { 48 <= b <= 57 }

  /** Digits, and underscores only between two of them. */
  ghost predicate Numeral(s: Bytes) {
    && s != [] && IsDecimalByte(s[0]) && IsDecimalByte(s[|s| - 1])
    && (forall i :: 0 <= i < |s| ==> IsDecimalByte(s[i]) || s[i] == 95)
    && (forall i :: 0 <= i < |s| - 1 ==> IsDecimalByte(s[i]) || IsDecimalByte(s[i + 1]))
  }

  lemma {:induction false} ParseUnsignedMeaning(s: Bytes)
    ensures ParseUnsigned(s).Some? <==> Numeral(s)
  {
    if |s| >= 2 && IsDecimalByte(s[|s| - 1]) {
      var front := if s[|s| - 2] == 95 then s[..|s| - 2] else s[..|s| - 1];
      ParseUnsignedMeaning(front);
      if Numeral(s) {
        assert front != [] && front[0] == s[0];
      }
    }
  }

  // ---------- The reader ----------

  predicate IsBlankLine(line: Bytes) { line == [CR, LF] || line == [LF] }

  type Headers = map<Bytes, Bytes>

  /** A line without a colon is noise; otherwise it is a header, and a repeated name overwrites. */
  function Note(headers: Headers, line: Bytes): Headers {
    var n := Until(line, IsColon);
    if n == |line| then headers
    else headers[LowerBytes(Strip(line[..n], IsBlank)) := Strip(line[n + 1..], IsBlank)]
  }

  /** Read whole lines up to a blank one; None when the stream has no blank line yet. */
  function ReadHeaders(s: Bytes, headers: Headers): Option<(Headers, Bytes)>
    decreases |s|
  {
    var n := Until(s, IsLf);
    if n == |s| then None
    else if IsBlankLine(s[..n + 1]) then Some((headers, s[n + 1..]))
    else ReadHeaders(s[n + 1..], Note(headers, s[..n + 1]))
  }

  /** The announced length; a missing or unreadable one counts as 0. */
  function BodyLength(headers: Headers): int {
    if LENGTH_KEY !in headers then 0
    else
      var n := ParseInt(headers[LENGTH_KEY]);
      if n.None? then 0 else n.value
  }

  /** Nothing, or a body and what is left behind it. */
  datatype Message = Eof | Message(body: Bytes, rest: Bytes)

  /** The reader on a stream that ends where `s` ends. */
  function ReadMessage(s: Bytes): Message {
    var h := ReadHeaders(s, map[]);
    if h.None? then Eof
    else
      var n := BodyLength(h.value.0);
      var rest := h.value.1;
      var k := if n <= 0 then 0 else if n <= |rest| then n else |rest|;
      Message(rest[..k], rest[k..])
  }

  /** The reader on a stream that may still grow: None while it would have to wait for more bytes. */
  function Available(s: Bytes): Option<(Bytes, Bytes)> {
    var h := ReadHeaders(s, map[]);
    if h.None? || BodyLength(h.value.0) > |h.value.1| then None
    else
      var m := ReadMessage(s);
      Some((m.body, m.rest))
  }

  /** One header line read: the rest of the stream, alone or with more behind it, is read with the same headers. */
  lemma HeaderStep(s: Bytes, more: Bytes, headers: Headers) returns (next: Headers)
    requires var n := Until(s, IsLf); n < |s| && !IsBlankLine(s[..n + 1])
    ensures var rest := s[Until(s, IsLf) + 1..];
      ReadHeaders(s, headers) == ReadHeaders(rest, next)
        && ReadHeaders(s + more, headers) == ReadHeaders(rest + more, next)
  {
    var n := Until(s, IsLf);
    next := Note(headers, s[..n + 1]);
    UntilUnique(s + more, IsLf, n);
    assert (s + more)[..n + 1] == s[..n + 1];
    assert (s + more)[n + 1..] == s[n + 1..] + more;
  }

  lemma HeaderEnd(s: Bytes, more: Bytes, headers: Headers)
    requires var n := Until(s, IsLf); n < |s| && IsBlankLine(s[..n + 1])
    ensures var rest := s[Until(s, IsLf) + 1..];
      ReadHeaders(s, headers) == Some((headers, rest)) && ReadHeaders(s + more, headers) == Some((headers, rest + more))
  {
    var n := Until(s, IsLf);
    UntilUnique(s + more, IsLf, n);
    assert (s + more)[..n + 1] == s[..n + 1];
    assert (s + more)[n + 1..] == s[n + 1..] + more;
  }

  lemma {:induction false} HeadersMore(s: Bytes, more: Bytes, headers: Headers)
    requires ReadHeaders(s, headers).Some?
    ensures var h := ReadHeaders(s, headers).value;
      ReadHeaders(s + more, headers) == Some((h.0, h.1 + more)) && |h.1| < |s|
    decreases |s|
  {
    var n := Until(s, IsLf);
    if IsBlankLine(s[..n + 1]) {
      HeaderEnd(s, more, headers);
    } else {
      var next := HeaderStep(s, more, headers);
      HeadersMore(s[n + 1..], more, next);
    }
  }

  lemma TakeMore(rest: Bytes, more: Bytes, k: nat)
    requires k <= |rest|
    ensures (rest + more)[..k] == rest[..k] && (rest + more)[k..] == rest[k..] + more
  {
  }

  /** Once a message is complete, bytes that come later do not change it. */
  lemma AvailableMore(s: Bytes, more: Bytes)
    requires Available(s).Some?
    ensures var a := Available(s).value; Available(s + more) == Some((a.0, a.1 + more))
  {
    HeadersMore(s, more, map[]);
    var n := BodyLength(ReadHeaders(s, map[]).value.0);
    TakeMore(ReadHeaders(s, map[]).value.1, more, if n <= 0 then 0 else n);
  }

  /** No proper prefix of a message is taken for one. */
  lemma PrefixWaits(s: Bytes, p: Bytes)
    requires Available(s).Some? && Available(s).value.1 == [] && p <= s && p != s
    ensures Available(p).None?
  {
    if Available(p).Some? {
      assert s == p + s[|p|..];
      AvailableMore(p, s[|p|..]);
      assert false;
    }
  }

  // ---------- The end of the stream ----------

  /** No line of the stream is blank. */
  ghost predicate NoBlankLine(s: Bytes) {
    var lines := SplitKeep(s, IsLf);
    forall i :: 0 <= i < |lines| ==> lines[i] != [13, 10] && lines[i] != [10]
  }

  lemma {:induction false} HeadersEnd(s: Bytes, headers: Headers)
    ensures ReadHeaders(s, headers).None? <==> NoBlankLine(s)
    decreases |s|
  {
    var n := Until(s, IsLf);
    if n == |s| {
      assert s != [] ==> SplitKeep(s, IsLf) == [s] && !IsLf(s[|s| - 1]);
    } else {
      var lines, rest := SplitKeep(s, IsLf), SplitKeep(s[n + 1..], IsLf);
      assert lines == [s[..n + 1]] + rest;
      assert forall i :: 0 <= i < |rest| ==> lines[i + 1] == rest[i];
      assert IsBlankLine(lines[0]) <==> lines[0] == [13, 10] || lines[0] == [10];
      HeadersEnd(s[n + 1..], Note(headers, s[..n + 1]));
    }
  }

  /** The stream ends before a message exactly when it has no blank line; the empty one has none. */
  lemma EndOfStream(s: Bytes)
    ensures ReadMessage(s).Eof? <==> NoBlankLine(s)
    ensures NoBlankLine([])
  {
    HeadersEnd(s, map[]);
  }

  // ---------- What is on the wire ----------

  /** A line of a preamble: it ends with its only line feed and is not blank. */
  ghost predicate HeaderLine(l: Bytes) {
    IsLine(l, IsLf) && Terminated(l, IsLf) && !IsBlankLine(l)
  }

  function NoteAll(headers: Headers, lines: seq<Bytes>): Headers
    decreases |lines|
  {
    if lines == [] then headers else NoteAll(Note(headers, lines[0]), lines[1..])
  }

  /** The reader sees exactly the lines in front of the first blank one. */
  lemma {:induction false} ReadPreamble(lines: seq<Bytes>, blank: Bytes, s: Bytes, headers: Headers)
    requires forall i :: 0 <= i < |lines| ==> HeaderLine(lines[i])
    requires IsBlankLine(blank)
    ensures ReadHeaders(Concat(lines) + blank + s, headers) == Some((NoteAll(headers, lines), s))
    decreases |lines|
  {
    var whole := Concat(lines) + blank + s;
    if lines == [] {
      assert whole == blank + s;
      UntilUnique(whole, IsLf, |blank| - 1);
      assert whole[..|blank|] == blank && whole[|blank|..] == s;
    } else {
      var l, tail := lines[0], Concat(lines[1..]) + blank + s;
      assert whole == l + tail;
      assert forall i :: 0 <= i < |l| - 1 ==> l[i] == l[..|l| - 1][i];
      UntilUnique(whole, IsLf, |l| - 1);
      assert whole[..|l|] == l && whole[|l|..] == tail;
      ReadPreamble(lines[1..], blank, s, Note(headers, l));
    }
  }

  function LengthLine(n: nat): Bytes {
    CONTENT_LENGTH + [COLON, 32] + DecimalBytes(n) + [CR, LF]
  }

  /** What `call` writes in front of the body. */
  function Header(body: Bytes): Bytes { LengthLine(|body|) + [CR, LF] }

  function Frame(body: Bytes): Bytes { Header(body) + body }

  /** A preamble line that does not speak about the length. */
  ghost predicate Harmless(l: Bytes) {
    Until(l, IsColon) < |l| ==> LowerBytes(Strip(l[..Until(l, IsColon)], IsBlank)) != LENGTH_KEY
  }

  /** Blank bytes within a line. */
  ghost predicate Inline(s: Bytes) {
    forall i :: 0 <= i < |s| ==> s[i] == 9 || 11 <= s[i] <= 13 || s[i] == 32
  }

  /** `content-length`, each letter small or capital. */
  ghost predicate AnyCase(name: Bytes) {
    && |name| == 14
    && forall i :: 0 <= i < 14 ==>
         name[i] == LENGTH_KEY[i] || (97 <= LENGTH_KEY[i] <= 122 && name[i] == LENGTH_KEY[i] - 32)
  }

  /** A header line about the length: blanks, the name, blanks, a colon, and a value. */
  datatype Spelling = Spelling(indent: Bytes, name: Bytes, gap: Bytes) {
    ghost predicate Valid() { Inline(indent) && AnyCase(name) && Inline(gap) }
    function Line(value: Bytes): Bytes { indent + name + gap + [COLON] + (value + [LF]) }
  }

  /** A number with blanks around it and perhaps a plus in front. */
  datatype Spelled = Spelled(pad: Bytes, sign: Bytes, tail: Bytes) {
    ghost predicate Valid() { Inline(pad) && (sign == [] || sign == [43]) && Inline(tail) }
    function Value(n: nat): Bytes { pad + (sign + DecimalBytes(n)) + tail }
  }

  /** A frame as a child may send it: any lines, the length, lines silent about the length, a blank line, the body. */
  datatype Wire = Wire(before: seq<Bytes>, name: Spelling, length: Spelled, after: seq<Bytes>, blank: Bytes,
                       body: Bytes)
  {
    ghost predicate Valid() {
      && name.Valid() && length.Valid()
      && (forall i :: 0 <= i < |before| ==> HeaderLine(before[i]))
      && (forall i :: 0 <= i < |after| ==> HeaderLine(after[i]) && Harmless(after[i]))
      && IsBlankLine(blank)
    }
    function Announcement(): Bytes { name.Line(length.Value(|body|)) }
    function Preamble(): seq<Bytes> { before + [Announcement()] + after }
    function Bytes(): Bytes { Concat(Preamble()) + blank + body }
  }

  lemma NameShape(sp: Spelling)
    requires sp.Valid()
    ensures LowerBytes(sp.name) == LENGTH_KEY && Tight(sp.name, IsBlank)
    ensures Never(sp.indent + sp.name + sp.gap, IsColon) && Never(sp.indent + sp.name + sp.gap, IsLf)
  {
    assert forall i :: 0 <= i < 14 ==> LENGTH_KEY[i] == 45 || 97 <= LENGTH_KEY[i] <= 122;
  }

  /** The line is a header, and its value is noted under the length whatever its spelling. */
  lemma LengthLineNoted(headers: Headers, sp: Spelling, value: Bytes)
    requires sp.Valid() && Never(value, IsLf)
    ensures HeaderLine(sp.Line(value))
    ensures Note(headers, sp.Line(value)) == headers[LENGTH_KEY := Strip(value + [LF], IsBlank)]
  {
    NameShape(sp);
    var front, l := sp.indent + sp.name + sp.gap, sp.Line(value);
    ColonAt(front, value);
    StripUnique(sp.indent, sp.name, sp.gap, IsBlank);
  }

  lemma ColonAt(front: Bytes, value: Bytes)
    requires Never(front, IsColon) && Never(front, IsLf) && Never(value, IsLf)
    ensures var l := front + [COLON] + (value + [LF]);
      && Until(l, IsColon) == |front| && l[..|front|] == front && l[|front| + 1..] == value + [LF] && HeaderLine(l)
  {
    var l := front + [COLON] + (value + [LF]);
    UntilUnique(l, IsColon, |front|);
    assert l[..|l| - 1] == front + [COLON] + value;
  }

  lemma SpelledValue(v: Spelled, n: nat)
    requires v.Valid()
    ensures Never(v.Value(n), IsLf) && ParseInt(Strip(v.Value(n) + [LF], IsBlank)) == Some(n)
  {
    StripSpelled(v, n);
    ParseSigned([], v.sign, n, []);
    assert [] + (v.sign + DecimalBytes(n)) + [] == v.sign + DecimalBytes(n);
  }

  lemma StripSpelled(v: Spelled, n: nat)
    requires v.Valid()
    ensures Never(v.Value(n), IsLf) && Strip(v.Value(n) + [LF], IsBlank) == v.sign + DecimalBytes(n)
  {
    var core := v.sign + DecimalBytes(n);
    assert v.Value(n) + [LF] == v.pad + core + (v.tail + [LF]);
    StripUnique(v.pad, core, v.tail + [LF], IsBlank);
  }

  lemma {:induction false} NoteAllHarmless(headers: Headers, lines: seq<Bytes>)
    requires forall i :: 0 <= i < |lines| ==> HeaderLine(lines[i]) && Harmless(lines[i])
    requires LENGTH_KEY in headers
    ensures LENGTH_KEY in NoteAll(headers, lines) && NoteAll(headers, lines)[LENGTH_KEY] == headers[LENGTH_KEY]
    decreases |lines|
  {
    if lines != [] { NoteAllHarmless(Note(headers, lines[0]), lines[1..]); }
  }

  lemma {:induction false} NoteAllAppend(headers: Headers, a: seq<Bytes>, b: seq<Bytes>)
    ensures NoteAll(headers, a + b) == NoteAll(NoteAll(headers, a), b)
    decreases |a|
  {
    if a == [] {
      assert a + b == b;
    } else {
      assert (a + b)[1..] == a[1..] + b;
      NoteAllAppend(Note(headers, a[0]), a[1..], b);
    }
  }

  /** After the preamble the value of its last line about the length is the one noted. */
  lemma LengthNoted(before: seq<Bytes>, sp: Spelling, value: Bytes, after: seq<Bytes>)
    requires sp.Valid() && Never(value, IsLf)
    requires forall i :: 0 <= i < |before| ==> HeaderLine(before[i])
    requires forall i :: 0 <= i < |after| ==> HeaderLine(after[i]) && Harmless(after[i])
    ensures var h := NoteAll(map[], before + [sp.Line(value)] + after);
      LENGTH_KEY in h && h[LENGTH_KEY] == Strip(value + [LF], IsBlank)
    ensures forall l <- before + [sp.Line(value)] + after :: HeaderLine(l)
  {
    var h, line := NoteAll(map[], before), sp.Line(value);
    LengthLineNoted(h, sp, value);
    NoteAllAppend(map[], before + [line], after);
    NoteAllAppend(map[], before, [line]);
    assert NoteAll(h, [line]) == Note(h, line);
    NoteAllHarmless(Note(h, line), after);
  }

  lemma WireLength(w: Wire)
    requires w.Valid()
    ensures BodyLength(NoteAll(map[], w.Preamble())) == |w.body|
    ensures forall i :: 0 <= i < |w.Preamble()| ==> HeaderLine(w.Preamble()[i])
  {
    SpelledValue(w.length, |w.body|);
    LengthNoted(w.before, w.name, w.length.Value(|w.body|), w.after);
    forall i | 0 <= i < |w.Preamble()| ensures HeaderLine(w.Preamble()[i]) { assert w.Preamble()[i] in w.Preamble(); }
  }

  /** A frame is read as its body, whatever surrounds the length line and whatever follows the frame. */
  lemma ReadWire(w: Wire, more: Bytes)
    requires w.Valid()
    ensures ReadMessage(w.Bytes() + more) == Message(w.body, more)
    ensures Available(w.Bytes() + more) == Some((w.body, more))
  {
    WireLength(w);
    var s := w.body + more;
    assert w.Bytes() + more == Concat(w.Preamble()) + w.blank + s;
    ReadPreamble(w.Preamble(), w.blank, s, map[]);
    assert s[..|w.body|] == w.body && s[|w.body|..] == more;
  }

  /** A frame cut off inside its body is read as what there is of it. */
  lemma ReadCutOff(w: Wire, k: nat)
    requires w.Valid() && k <= |w.body|
    ensures ReadMessage(Concat(w.Preamble()) + w.blank + w.body[..k]) == Message(w.body[..k], [])
  {
    WireLength(w);
    ReadPreamble(w.Preamble(), w.blank, w.body[..k], map[]);
  }

  lemma PlainLine(n: nat)
    ensures Spelling([], CONTENT_LENGTH, []).Valid() && Spelled([32], [], [CR]).Valid()
    ensures Spelling([], CONTENT_LENGTH, []).Line(Spelled([32], [], [CR]).Value(n)) == LengthLine(n)
  {
  }

  /** A number: digits, perhaps with single underscores between them, behind a sign or none. */
  ghost predicate IsNumber(s: Bytes) {
    Numeral(s) || (s != [] && (s[0] == 43 || s[0] == 45) && Numeral(s[1..]))
  }

  lemma ParseIntMeaning(v: Bytes)
    ensures ParseInt(v).Some? <==> IsNumber(Strip(v, IsBlank))
  {
    var s := Strip(v, IsBlank);
    ParseUnsignedMeaning(s);
    if s != [] { ParseUnsignedMeaning(s[1..]); }
  }

  /** A length that is no number counts as none: the body is empty and the rest stays unread. */
  lemma UnreadableLength(before: seq<Bytes>, sp: Spelling, value: Bytes, after: seq<Bytes>, blank: Bytes, s: Bytes)
    requires sp.Valid() && Never(value, IsLf) && !IsNumber(Strip(Strip(value + [LF], IsBlank), IsBlank))
    requires forall i :: 0 <= i < |before| ==> HeaderLine(before[i])
    requires forall i :: 0 <= i < |after| ==> HeaderLine(after[i]) && Harmless(after[i])
    requires IsBlankLine(blank)
    ensures ReadMessage(Concat(before + [sp.Line(value)] + after) + blank + s) == Message([], s)
  {
    var lines := before + [sp.Line(value)] + after;
    LengthNoted(before, sp, value, after);
    ParseIntMeaning(Strip(value + [LF], IsBlank));
    forall i | 0 <= i < |lines| ensures HeaderLine(lines[i]) { assert lines[i] in lines; }
    ReadPreamble(lines, blank, s, map[]);
  }

  /** What the bridge writes is such a frame. */
  lemma FrameIsWire(body: Bytes) returns (w: Wire)
    ensures w.Valid() && w.body == body && w.Bytes() == Frame(body)
  {
    w := Wire([], Spelling([], CONTENT_LENGTH, []), Spelled([32], [], [CR]), [], [CR, LF], body);
    PlainLine(|body|);
    assert w.Preamble() == [LengthLine(|body|)];
    assert Concat([LengthLine(|body|)]) == LengthLine(|body|) + Concat<Byte>([]);
  }

  /** Byte for byte: the name, the length in decimal, two line ends, the body. */
  lemma FrameBytes(body: Bytes)
    ensures Frame(body) ==
      [67, 111, 110, 116, 101, 110, 116, 45, 76, 101, 110, 103, 116, 104, 58, 32] + DecimalBytes(|body|)
      + [13, 10, 13, 10] + body
  {
  }

  /** All bodies the reader takes off a stream, one after the other, until it meets the end. */
  function DecodeAll(s: Bytes): seq<Bytes>
    decreases |s|
  {
    var m := ReadMessage(s);
    if m.Eof? then [] else ReadConsumes(s); [m.body] + DecodeAll(m.rest)
  }

  lemma ReadConsumes(s: Bytes)
    requires ReadMessage(s).Message?
    ensures |ReadMessage(s).rest| < |s|
  {
    HeadersMore(s, [], map[]);
  }

  lemma DecodeStep(s: Bytes, body: Bytes, rest: Bytes)
    requires ReadMessage(s) == Message(body, rest)
    ensures DecodeAll(s) == [body] + DecodeAll(rest)
  {
  }

  lemma DecodeWire(w: Wire, more: Bytes)
    requires w.Valid()
    ensures DecodeAll(w.Bytes() + more) == [w.body] + DecodeAll(more)
  {
    ReadWire(w, more);
    DecodeStep(w.Bytes() + more, w.body, more);
  }

  /** A decoder that takes each part off the front takes a whole list of parts off the front. */
  lemma {:induction false} DecodeParts(decode: Bytes -> seq<Bytes>, parts: seq<Bytes>, bodies: seq<Bytes>, more: Bytes)
    requires |parts| == |bodies|
    requires forall i, m :: 0 <= i < |parts| ==> decode(parts[i] + m) == [bodies[i]] + decode(m)
    ensures decode(Concat(parts) + more) == bodies + decode(more)
    decreases |parts|
  {
    if parts == [] {
      assert Concat(parts) + more == more;
    } else {
      var tail := Concat(parts[1..]) + more;
      assert Concat(parts) + more == parts[0] + tail;
      DecodeParts(decode, parts[1..], bodies[1..], more);
    }
  }

  function WireAll(ws: seq<Wire>): (parts: seq<Bytes>)
    ensures |parts| == |ws|
  {
    seq(|ws|, i requires 0 <= i < |ws| => ws[i].Bytes())
  }

  function Bodies(ws: seq<Wire>): (bodies: seq<Bytes>)
    ensures |bodies| == |ws|
  {
    seq(|ws|, i requires 0 <= i < |ws| => ws[i].body)
  }

  /** Any list of frames decodes to exactly its bodies, and reading goes on right behind the last frame. */
  lemma DecodeWires(ws: seq<Wire>, more: Bytes)
    requires forall i :: 0 <= i < |ws| ==> ws[i].Valid()
    ensures DecodeAll(Concat(WireAll(ws)) + more) == Bodies(ws) + DecodeAll(more)
  {
    forall i, m: Bytes | 0 <= i < |ws| ensures DecodeAll(WireAll(ws)[i] + m) == [Bodies(ws)[i]] + DecodeAll(m) {
      DecodeWire(ws[i], m);
    }
    DecodeParts(DecodeAll, WireAll(ws), Bodies(ws), more);
  }

  function Frames(bodies: seq<Bytes>): (parts: seq<Bytes>)
    ensures |parts| == |bodies|
  {
    seq(|bodies|, i requires 0 <= i < |bodies| => Frame(bodies[i]))
  }

  /** Writing frames and reading them back loses nothing and invents nothing. */
  lemma FramesRoundTrip(bodies: seq<Bytes>, more: Bytes)
    ensures DecodeAll(Concat(Frames(bodies)) + more) == bodies + DecodeAll(more)
    ensures DecodeAll([]) == []
  {
    forall i, m: Bytes | 0 <= i < |bodies| ensures DecodeAll(Frames(bodies)[i] + m) == [bodies[i]] + DecodeAll(m) {
      var w := FrameIsWire(bodies[i]);
      DecodeWire(w, m);
    }
    DecodeParts(DecodeAll, Frames(bodies), bodies, more);
  }

  /** A blank line among the noise ends the headers early: the reader answers at once with the length announced
      so far, and with nothing when none was, leaving the rest of the stream unread. */
  lemma BlankNoiseEndsMessage(lines: seq<Bytes>, blank: Bytes, s: Bytes)
    requires forall i :: 0 <= i < |lines| ==> HeaderLine(lines[i]) && Harmless(lines[i])
    requires IsBlankLine(blank)
    ensures ReadMessage(Concat(lines) + blank + s) == Message([], s)
  {
    ReadPreamble(lines, blank, s, map[]);
    NoLengthNoted(map[], lines);
  }

  lemma {:induction false} NoLengthNoted(headers: Headers, lines: seq<Bytes>)
    requires forall i :: 0 <= i < |lines| ==> HeaderLine(lines[i]) && Harmless(lines[i])
    requires LENGTH_KEY !in headers
    ensures LENGTH_KEY !in NoteAll(headers, lines)
    decreases |lines|
  {
    if lines != [] { NoLengthNoted(Note(headers, lines[0]), lines[1..]); }
  }
}
