/** What the telegram parser promises: printing and parsing are inverse, an unreadable line costs
    only itself, and a checksummed telegram whose framing survives a corruption is refused. */
module Telegrams {
  import opened Options
  import opened Crc
  import opened Obis

  // --- the printer (as examples/generate.py writes a telegram) ----------------------

  const EOL: string := "\r\n"

  function PrintBlock(b: Block<string>): string {
    "(" + b.value + (if b.unit.Some? then "*" + b.unit.value else "") + ")"
  }

  function PrintBlocks(bs: seq<Block<string>>): string {
    if bs == [] then "" else PrintBlock(bs[0]) + PrintBlocks(bs[1..])
  }

  function PrintRecord(r: Record<string>): string {
    r.medium + "-" + (r.channel + ":" + (r.cls + "." + (r.instance + "." + (r.attribute + PrintBlocks(r.data)))))
  }

  function JoinLines(lines: seq<string>): string {
    if lines == [] then "" else lines[0] + EOL + JoinLines(lines[1..])
  }

  /** `/XXXZ<identification>`, with `head` the four characters after the slash. */
  function Body(head: string, device: string, lines: seq<string>): string {
    "/" + head + device + "\r\n\r\n" + JoinLines(lines) + "!"
  }

  function HexChar(d: nat): (c: char)
    requires d < 16
    ensures IsHex(c) && HexDigit(c) == d
  {
    if d < 10 then '0' + d as char else 'A' + (d - 10) as char
  }

  /** `:04X`. */
  function HexOf(n: nat): (s: string)
    requires n < 0x1_0000
    ensures |s| == 4 && FourHex(s) && HexValue(s) == n
  {
    [HexChar(n / 16 / 16 / 16), HexChar(n / 16 / 16 % 16), HexChar(n / 16 % 16), HexChar(n % 16)]
  }

  function Hex4(w: Word): (s: string)
    ensures |s| == 4 && FourHex(s) && HexValue(s) == w as int
  {
    HexOf(w as int)
  }

  function Print(head: string, device: string, lines: seq<string>, tail: string): string {
    var body := Body(head, device, lines);
    body + Hex4(Crc16(Encode(body))) + tail
  }

  // --- what can be printed --------------------------------------------------------------

  predicate Word1(s: string) {
    s != "" && AllWord(s)
  }

  predicate PrintableBlock(b: Block<string>) {
    && (forall i :: 0 <= i < |b.value| ==> ValueChar(b.value[i]) && NotBang(b.value[i]))
    && (b.unit.Some? ==> Word1(b.unit.value))
  }

  /** A record a meter can send: five words, at least one block. */
  predicate PrintableRecord(r: Record<string>) {
    && Word1(r.medium) && Word1(r.channel) && Word1(r.cls) && Word1(r.instance) && Word1(r.attribute)
    && r.data != []
    && forall i :: 0 <= i < |r.data| ==> PrintableBlock(r.data[i])
  }

  /** A line that fits between the header and the `!`. */
  predicate PlainLine(s: string) {
    forall i :: 0 <= i < |s| ==> s[i] != '\n' && s[i] != '!'
  }

  predicate PrintableHeader(head: string, device: string) {
    |head| == 4 && AllWord(head) && forall i :: 0 <= i < |device| ==> NotLineEnd(device[i])
  }

  function Convert<V>(conv: string -> V, r: Record<string>): Record<V> {
    Record(conv(r.medium), conv(r.channel), conv(r.cls), conv(r.instance), conv(r.attribute), Blocks(conv, r.data))
  }

  function Blocks<V>(conv: string -> V, bs: seq<Block<string>>): seq<Block<V>> {
    seq(|bs|, i requires 0 <= i < |bs| =>
          Block(conv(bs[i].value), match bs[i].unit case None => None case Some(unit) => Some(conv(unit))))
  }

  // --- records ------------------------------------------------------------------------------

  lemma {:induction false} RunOf(p: char -> bool, a: string, b: string)
    requires forall i :: 0 <= i < |a| ==> p(a[i])
    requires b != "" ==> !p(b[0])
    ensures Run(p, a + b) == |a|
    decreases |a|
  {
    if a == "" {
      assert a + b == b;
    } else {
      assert (a + b)[1..] == a[1..] + b;
      RunOf(p, a[1..], b);
    }
  }

  lemma FieldOf(w: string, sep: char, rest: string)
    requires Word1(w) && !IsWord(sep)
    ensures Field(w + [sep] + rest, sep) == Some((w, rest))
  {
    var s := w + [sep] + rest;
    assert s == w + ([sep] + rest);
    RunOf(IsWord, w, [sep] + rest);
    assert s[..|w|] == w && s[|w| + 1..] == rest;
  }

  /** A block without a unit. */
  lemma MatchBare(value: string, rest: string)
    requires forall i :: 0 <= i < |value| ==> ValueChar(value[i])
    ensures MatchValue("(" + value + ")" + rest) == Some((Block(value, None), SkipSeparator(rest)))
  {
    var s := "(" + value + ")" + rest;
    assert s[1..] == value + (")" + rest);
    RunOf(ValueChar, value, ")" + rest);
    assert s[1..][..|value|] == value && s[1..][|value| + 1..] == rest;
  }

  /** A block with one. */
  lemma MatchMeasured(value: string, unit: string, rest: string)
    requires forall i :: 0 <= i < |value| ==> ValueChar(value[i])
    requires Word1(unit)
    ensures MatchValue("(" + value + "*" + unit + ")" + rest) == Some((Block(value, Some(unit)), SkipSeparator(rest)))
  {
    hide Word1, Field;
    var s := "(" + value + "*" + unit + ")" + rest;
    var after := unit + [')'] + rest;
    assert s[1..] == value + ("*" + after);
    RunOf(ValueChar, value, "*" + after);
    assert s[1..][..|value|] == value && s[1..][|value| + 1..] == after;
    FieldOf(unit, ')', rest);
  }

  lemma MatchPrintedBlock(b: Block<string>, rest: string)
    requires PrintableBlock(b) && (rest == "" || rest[0] == '(')
    ensures MatchValue(PrintBlock(b) + rest) == Some((b, rest))
  {
    hide MatchValue;
    if b.unit.None? {
      MatchBare(b.value, rest);
      assert PrintBlock(b) == "(" + b.value + ")";
    } else {
      MatchMeasured(b.value, b.unit.value, rest);
      assert PrintBlock(b) == "(" + b.value + "*" + b.unit.value + ")";
    }
  }

  lemma {:induction false} MatchPrintedBlocks<V>(conv: string -> V, bs: seq<Block<string>>)
    requires forall i :: 0 <= i < |bs| ==> PrintableBlock(bs[i])
    ensures MatchBlocks(conv, PrintBlocks(bs)) == (Blocks(conv, bs), "")
  {
    hide MatchValue, PrintBlock, PrintableBlock;
    if bs == [] {
      assert MatchValue("") == None by { EmptyHasNoValue(); }
    } else {
      MatchPrintedBlocks(conv, bs[1..]);
      assert Blocks(conv, bs) == [Blocks(conv, bs)[0]] + Blocks(conv, bs[1..]);
      BlocksStart(bs[1..]);
      MatchPrintedBlock(bs[0], PrintBlocks(bs[1..]));
    }
  }

  lemma EmptyHasNoValue()
    ensures MatchValue("") == None
  {
  }

  lemma BlocksStart(bs: seq<Block<string>>)
    ensures PrintBlocks(bs) == "" || PrintBlocks(bs)[0] == '('
  {
  }

  lemma MatchPrintedObis(r: Record<string>)
    requires PrintableRecord(r)
    ensures MatchObis(PrintRecord(r))
              == Some((Reference(r.medium, r.channel, r.cls, r.instance, r.attribute), PrintBlocks(r.data)))
  {
    hide Field, Word1, PrintableBlock, PrintBlocks;
    var p4 := r.attribute + PrintBlocks(r.data);
    var p3 := r.instance + "." + p4;
    var p2 := r.cls + "." + p3;
    var p1 := r.channel + ":" + p2;
    FieldOf(r.medium, '-', p1);
    FieldOf(r.channel, ':', p2);
    FieldOf(r.cls, '.', p3);
    FieldOf(r.instance, '.', p4);
    AttributeRun(r.attribute, r.data);
    assert p4[..|r.attribute|] == r.attribute && p4[|r.attribute|..] == PrintBlocks(r.data);
  }

  lemma AttributeRun(w: string, bs: seq<Block<string>>)
    requires Word1(w)
    ensures |w| > 0 && Run(IsWord, w + PrintBlocks(bs)) == |w|
  {
    BlocksStart(bs);
    RunOf(IsWord, w, PrintBlocks(bs));
  }

  /** Parsing a printed record gives it back: the five words of its reference in their places, and as
      many blocks, each with its value and with its unit exactly if it has one, each text converted. */
  lemma RecordRoundTrip<V>(conv: string -> V, r: Record<string>)
    requires PrintableRecord(r)
    ensures RecordOf(conv, PrintRecord(r)) == Some(Convert(conv, r))
    ensures var parsed := RecordOf(conv, PrintRecord(r)).value;
      && parsed.medium == conv(r.medium) && parsed.channel == conv(r.channel) && parsed.cls == conv(r.cls)
      && parsed.instance == conv(r.instance) && parsed.attribute == conv(r.attribute)
      && |parsed.data| == |r.data|
      && (forall i :: 0 <= i < |r.data| ==>
            && parsed.data[i].value == conv(r.data[i].value)
            && (parsed.data[i].unit.Some? <==> r.data[i].unit.Some?)
            && (r.data[i].unit.Some? ==> parsed.data[i].unit == Some(conv(r.data[i].unit.value))))
  {
    hide MatchObis, MatchBlocks, PrintRecord;
    MatchPrintedObis(r);
    MatchPrintedBlocks(conv, r.data);
  }

  // --- lines --------------------------------------------------------------------------------------

  lemma {:induction false} BreakOf(line: string, rest: string, i: nat)
    requires i <= |line| && forall k :: 0 <= k < |line| ==> line[k] != '\n'
    ensures FirstBreak(line + EOL + rest, i) == |line|
    decreases |line| - i
  {
    var s := line + EOL + rest;
    assert s[|line|] == '\r' && s[|line| + 1] == '\n';
    if i < |line| {
      assert s[i] == line[i] && s[i + 1] == if i + 1 < |line| then line[i + 1] else '\r';
      BreakOf(line, rest, i + 1);
    }
  }

  lemma {:induction false} SplitJoined(lines: seq<string>)
    requires forall i :: 0 <= i < |lines| ==> PlainLine(lines[i])
    ensures SplitLines(JoinLines(lines)) == lines + [""]
    decreases |lines|
  {
    if lines != [] {
      hide PlainLine;
      SplitJoined(lines[1..]);
      assert lines == [lines[0]] + lines[1..];
      hide SplitLines, BreakAt;
      assert PlainLine(lines[0]);
      FirstLine(lines[0], JoinLines(lines[1..]));
      assert [lines[0]] + (lines[1..] + [""]) == lines + [""];
    }
  }

  lemma FirstLine(line: string, rest: string)
    requires PlainLine(line)
    ensures SplitLines(line + EOL + rest) == [line] + SplitLines(rest)
  {
    var s := line + EOL + rest;
    BreakOf(line, rest, 0);
    assert BreakAt(s, |line|) == 2;
    assert s[..|line|] == line && s[|line| + 2..] == rest;
  }

  lemma RecordsSkipEmpty<V>(conv: string -> V, lines: seq<string>)
    ensures RecordsOf(conv, lines + [""]) == RecordsOf(conv, lines)
  {
    assert (lines + [""])[..|lines|] == lines;
  }

  lemma {:induction false} JoinIsPlain(lines: seq<string>, i: nat)
    requires forall k :: 0 <= k < |lines| ==> PlainLine(lines[k])
    requires i < |JoinLines(lines)|
    ensures JoinLines(lines)[i] != '!'
    decreases |lines|
  {
    var line := lines[0];
    if i < |line| {
      assert PlainLine(line);
    } else if i >= |line| + 2 {
      JoinIsPlain(lines[1..], i - |line| - 2);
    }
  }

  // --- the frame -------------------------------------------------------------------------------------

  /** The header, whatever follows it. */
  lemma DataStartOf(head: string, device: string, rest: string)
    requires PrintableHeader(head, device)
    ensures var t := "/" + head + device + "\r\n\r\n" + rest;
            && DataStart(t) == Some(9 + |device|)
            && t[1..4] == head[..3] && t[5..5 + |device|] == device && t[9 + |device|..] == rest
  {
    var t := "/" + head + device + "\r\n\r\n" + rest;
    var h := 5 + |device|;
    assert t[1..5] == head;
    assert t[5..] == device + ("\r\n\r\n" + rest);
    RunOf(NotLineEnd, device, "\r\n\r\n" + rest);
    assert t[h..h + 4] == "\r\n\r\n";
  }

  /** The data, up to its `!`. */
  lemma BangOf(t: string, start: nat, data: string, after: string)
    requires start <= |t| && t[start..] == data + "!" + after
    requires forall i :: 0 <= i < |data| ==> data[i] != '!'
    ensures BangFrom(t, start) == start + |data| < |t|
    ensures t[start..start + |data|] == data && t[start + |data| + 1..] == after
  {
    assert t[start..] == data + ("!" + after);
    RunOf(NotBang, data, "!" + after);
    assert t[start..start + |data|] == t[start..][..|data|];
    assert t[start + |data| + 1..] == t[start..][|data| + 1..];
  }

  lemma ChecksumOf(crc: string, tail: string)
    requires |crc| == 4 && FourHex(crc) && EndsHere(tail)
    ensures Checksum(crc + tail) == Some(Some(crc))
  {
    assert (crc + tail)[4..] == tail && (crc + tail)[..4] == crc;
  }

  /** Where the pieces of a printed telegram are. */
  lemma MatchPrinted(head: string, device: string, lines: seq<string>, crc: string, tail: string)
    requires PrintableHeader(head, device) && forall i :: 0 <= i < |lines| ==> PlainLine(lines[i])
    requires |crc| == 4 && FourHex(crc) && EndsHere(tail)
    ensures var body := Body(head, device, lines);
            MatchFrame(body + crc + tail)
              == Some(Frame(head[..3], device, JoinLines(lines), |body| - 1, Some(crc)))
  {
    hide JoinLines, PlainLine, PrintableHeader, DataStart, BangFrom, Checksum, FourHex, EndsHere;
    var data := JoinLines(lines);
    var rest := data + "!" + (crc + tail);
    var t := Body(head, device, lines) + crc + tail;
    assert t == "/" + head + device + "\r\n\r\n" + rest;
    DataStartOf(head, device, rest);
    forall i | 0 <= i < |data| ensures data[i] != '!' {
      JoinIsPlain(lines, i);
    }
    BangOf(t, 9 + |device|, data, crc + tail);
    ChecksumOf(crc, tail);
    HeadLength(head, device);
  }

  lemma HeadLength(head: string, device: string)
    requires PrintableHeader(head, device)
    ensures |head| == 4
  {
  }

  // --- the promises ---------------------------------------------------------------------------------------

  /** Parsing a printed telegram gives its header and the records of its readable lines, in
      order, whatever the other lines hold; it is refused only when no line is readable. */
  lemma PrintedIsParsed<V>(conv: string -> V, head: string, device: string, lines: seq<string>, tail: string)
    requires PrintableHeader(head, device) && forall i :: 0 <= i < |lines| ==> PlainLine(lines[i])
    requires EndsHere(tail)
    ensures var crc := Hex4(Crc16(Encode(Body(head, device, lines))));
            ParseText(conv, Print(head, device, lines, tail))
              == if RecordsOf(conv, lines) == [] then Rejected
                 else Telegram(conv(head[..3]), conv(device), RecordsOf(conv, lines), Some(crc))
  {
    hide MatchFrame, Body, RecordsOf, SplitLines, Crc16, Encode, Hex4, HexValue, PlainLine, EndsHere, JoinLines,
         PrintableHeader, FourHex, ChecksumHolds, ParseText, IsHex, FrameFits;
    var body := Body(head, device, lines);
    var crc := Hex4(Crc16(Encode(body)));
    MatchPrinted(head, device, lines, crc, tail);
    HeadLength(head, device);
    var f := Frame(head[..3], device, JoinLines(lines), |body| - 1, Some(crc));
    BodyNotEmpty(head, device, lines);
    OwnChecksumHolds(body, tail, f);
    ParsedFrom(conv, body + crc + tail, f);
    RecordsOfJoined(conv, lines);
  }

  lemma RecordsOfJoined<V>(conv: string -> V, lines: seq<string>)
    requires forall i :: 0 <= i < |lines| ==> PlainLine(lines[i])
    ensures RecordsOf(conv, SplitLines(JoinLines(lines))) == RecordsOf(conv, lines)
  {
    hide RecordsOf, SplitLines, JoinLines, PlainLine;
    SplitJoined(lines);
    RecordsSkipEmpty(conv, lines);
  }

  lemma ParsedFrom<V>(conv: string -> V, t: string, f: Frame)
    requires MatchFrame(t) == Some(f) && ChecksumHolds(t, f)
    ensures ParseText(conv, t)
              == if RecordsOf(conv, SplitLines(f.data)) == [] then Rejected
                 else Telegram(conv(f.model), conv(f.device), RecordsOf(conv, SplitLines(f.data)), f.crc)
  {
  }

  lemma OwnChecksumHolds(body: string, tail: string, f: Frame)
    requires |body| > 0 && f.bang == |body| - 1 && f.crc == Some(Hex4(Crc16(Encode(body))))
    requires MatchFrame(body + Hex4(Crc16(Encode(body))) + tail) == Some(f)
    ensures ChecksumHolds(body + Hex4(Crc16(Encode(body))) + tail, f)
  {
    hide Crc16, Encode, Hex4, HexValue, MatchFrame, FrameFits, FourHex;
    assert (body + Hex4(Crc16(Encode(body))) + tail)[..|body|] == body;
  }

  lemma BodyNotEmpty(head: string, device: string, lines: seq<string>)
    ensures |Body(head, device, lines)| > 0
  {
  }

  function PrintAll(rs: seq<Record<string>>): (lines: seq<string>)
    ensures |lines| == |rs|
  {
    seq(|rs|, i requires 0 <= i < |rs| => PrintRecord(rs[i]))
  }

  function ConvertAll<V>(conv: string -> V, rs: seq<Record<string>>): seq<Record<V>> {
    seq(|rs|, i requires 0 <= i < |rs| => Convert(conv, rs[i]))
  }

  lemma {:induction false} RecordsOfPrinted<V>(conv: string -> V, rs: seq<Record<string>>)
    requires forall i :: 0 <= i < |rs| ==> PrintableRecord(rs[i])
    ensures RecordsOf(conv, PrintAll(rs)) == ConvertAll(conv, rs)
    decreases |rs|
  {
    hide RecordOf, PrintRecord, PrintableRecord, Convert;
    if rs != [] {
      var n := |rs| - 1;
      RecordsOfPrinted(conv, rs[..n]);
      assert PrintAll(rs)[..n] == PrintAll(rs[..n]);
      RecordRoundTrip(conv, rs[n]);
      PrintedIsPlain(rs[n]);
      assert ConvertAll(conv, rs) == ConvertAll(conv, rs[..n]) + [Convert(conv, rs[n])];
    }
  }

  lemma {:induction false} BlocksArePlain(bs: seq<Block<string>>)
    requires forall i :: 0 <= i < |bs| ==> PrintableBlock(bs[i])
    ensures PlainLine(PrintBlocks(bs))
    decreases |bs|
  {
    if bs != [] {
      BlocksArePlain(bs[1..]);
      BlockIsPlain(bs[0]);
      PlainConcat(PrintBlock(bs[0]), PrintBlocks(bs[1..]));
    }
  }

  lemma BlockIsPlain(b: Block<string>)
    requires PrintableBlock(b)
    ensures PlainLine(PrintBlock(b))
  {
  }

  lemma PlainConcat(a: string, b: string)
    requires PlainLine(a) && PlainLine(b)
    ensures PlainLine(a + b)
  {
  }

  lemma PrintedIsPlain(r: Record<string>)
    requires PrintableRecord(r)
    ensures PlainLine(PrintRecord(r)) && PrintRecord(r) != ""
  {
    hide PrintBlocks, PrintableBlock;
    BlocksArePlain(r.data);
    var p4 := r.attribute + PrintBlocks(r.data);
    var p3 := r.instance + ("." + p4);
    var p2 := r.cls + ("." + p3);
    var p1 := r.channel + (":" + p2);
    assert PlainLine(p4);
    assert PlainLine(p3);
    assert PlainLine(p2);
    assert PlainLine(p1);
    assert PrintRecord(r) == r.medium + ("-" + p1);
  }

  /** The round trip: any list of well-formed records, printed under any header with its
      checksum, is parsed back to exactly those records, each text converted. */
  lemma TelegramRoundTrip<V>(conv: string -> V, head: string, device: string, rs: seq<Record<string>>, tail: string)
    requires PrintableHeader(head, device) && EndsHere(tail)
    requires rs != [] && forall i :: 0 <= i < |rs| ==> PrintableRecord(rs[i])
    ensures var t := Print(head, device, PrintAll(rs), tail);
            var crc := Hex4(Crc16(Encode(Body(head, device, PrintAll(rs)))));
            ParseText(conv, t) == Telegram(conv(head[..3]), conv(device), ConvertAll(conv, rs), Some(crc))
  {
    hide PrintableRecord, PrintRecord, PlainLine, RecordsOf, ParseText, Print, Body, Crc16, Encode, Convert, EndsHere;
    forall i | 0 <= i < |rs| ensures PlainLine(PrintAll(rs)[i]) {
      PrintedIsPlain(rs[i]);
    }
    PrintedIsParsed(conv, head, device, PrintAll(rs), tail);
    RecordsOfPrinted(conv, rs);
  }

  // --- line isolation -----------------------------------------------------------------------------------------

  predicate Readable<V(==)>(conv: string -> V, line: string) {
    line != "" && RecordOf(conv, line).Some?
  }

  /** `more` is `lines` with unreadable lines inserted anywhere. */
  ghost predicate WithNoise<V>(conv: string -> V, lines: seq<string>, more: seq<string>)
    decreases |more|
  {
    if more == [] then lines == []
    else
      var m := |more| - 1;
      || (!Readable(conv, more[m]) && WithNoise(conv, lines, more[..m]))
      || (lines != [] && lines[|lines| - 1] == more[m] && WithNoise(conv, lines[..|lines| - 1], more[..m]))
  }

  lemma {:induction false} NoiseIsIgnored<V>(conv: string -> V, lines: seq<string>, more: seq<string>)
    requires WithNoise(conv, lines, more)
    ensures RecordsOf(conv, more) == RecordsOf(conv, lines)
    decreases |more|
  {
    hide RecordOf;
    if more != [] {
      var m := |more| - 1;
      if !Readable(conv, more[m]) && WithNoise(conv, lines, more[..m]) {
        NoiseIsIgnored(conv, lines, more[..m]);
      } else {
        NoiseIsIgnored(conv, lines[..|lines| - 1], more[..m]);
      }
    }
  }

  /** Line isolation: inserting any number of unreadable lines anywhere, with the checksum
      recomputed, leaves the parsed telegram as it was but for the checksum. */
  lemma LineIsolation<V>(conv: string -> V, head: string, device: string, lines: seq<string>, more: seq<string>,
                         tail: string)
    requires PrintableHeader(head, device) && EndsHere(tail)
    requires forall i :: 0 <= i < |lines| ==> PlainLine(lines[i])
    requires forall i :: 0 <= i < |more| ==> PlainLine(more[i])
    requires WithNoise(conv, lines, more) && RecordsOf(conv, lines) != []
    ensures var was := ParseText(conv, Print(head, device, lines, tail));
            var now := ParseText(conv, Print(head, device, more, tail));
            was.Telegram? && now == was.(crc := Some(Hex4(Crc16(Encode(Body(head, device, more))))))
  {
    hide PlainLine, RecordsOf, ParseText, Print, Body, Crc16, Encode, WithNoise, EndsHere;
    NoiseIsIgnored(conv, lines, more);
    PrintedIsParsed(conv, head, device, lines, tail);
    PrintedIsParsed(conv, head, device, more, tail);
  }

  // --- corruption ---------------------------------------------------------------------------------------------------

  /** The corrupted telegram either has no frame any more or ends its data at the same `!`. */
  predicate KeepsFraming(t: string, t': string) {
    MatchFrame(t).Some? && (MatchFrame(t').Some? ==> MatchFrame(t').value.bang == MatchFrame(t).value.bang)
  }

  /** A corruption of the bytes the checksum covers, of a kind it detects. */
  ghost predicate Detectable(a: seq<Byte>, b: seq<Byte>) {
    && |a| == |b|
    && (Odd(Difference(a, b))
        || (!IsZero(Difference(a, b)) && exists from: nat :: Burst(Difference(a, b), from)))
  }

  lemma DetectableChangesCrc(a: seq<Byte>, b: seq<Byte>)
    requires Detectable(a, b)
    ensures |a| == |b| && Crc16(a) != Crc16(b)
  {
    hide Crc16, Odd, Bits, Burst, Add;
    if Odd(Difference(a, b)) {
      OddIsDetected(a, b);
    } else {
      var from: nat :| Burst(Difference(a, b), from);
      BurstIsDetected(a, b, from);
    }
  }

  /** A checksummed telegram that was accepted is refused after any corruption, between its `/`
      and its `!`, that is a burst of at most 16 bits or an odd number of bits and keeps the
      framing. */
  lemma CorruptionIsRejected<V>(conv: string -> V, t: string, t': string)
    requires ParseText(conv, t).Telegram? && ParseText(conv, t).crc.Some?
    requires KeepsFraming(t, t') && |t'| == |t|
    requires var k := MatchFrame(t).value.bang + 1;
             t'[k..] == t[k..] && Detectable(Encode(t[..k]), Encode(t'[..k]))
    ensures ParseText(conv, t') == Rejected
  {
    hide ParseText, Encode, Crc16, HexValue, Detectable, DataStart, BangFrom, Checksum, FourHex, MatchFrame;
    if MatchFrame(t').Some? {
      var f, f' := MatchFrame(t).value, MatchFrame(t').value;
      assert f'.crc == f.crc;
      var a, b := Encode(t[..f.bang + 1]), Encode(t'[..f.bang + 1]);
      DetectableChangesCrc(a, b);
      AcceptedMatches(conv, t);
      WordsAsNumbers(Crc16(a), Crc16(b));
      MismatchIsRejected(conv, t', f');
    } else {
      NoFrameIsRejected(conv, t');
    }
  }

  lemma WordsAsNumbers(a: Word, b: Word)
    requires a != b
    ensures a as int != b as int
  {
    assert (a as int) as Word == a && (b as int) as Word == b;
  }

  lemma NoFrameIsRejected<V>(conv: string -> V, t: string)
    requires MatchFrame(t).None?
    ensures ParseText(conv, t) == Rejected
  {
    hide MatchFrame;
  }

  lemma MismatchIsRejected<V>(conv: string -> V, t: string, f: Frame)
    requires MatchFrame(t) == Some(f) && f.crc.Some? && |f.crc.value| == 4 && FourHex(f.crc.value)
    requires Crc16(Encode(t[..f.bang + 1])) as int != HexValue(f.crc.value)
    ensures ParseText(conv, t) == Rejected
  {
    hide RecordsOf, SplitLines, Encode, Crc16, HexValue, DataStart, BangFrom, Checksum, MatchFrame, FourHex;
  }

  lemma AcceptedMatches<V>(conv: string -> V, t: string)
    requires ParseText(conv, t).Telegram? && ParseText(conv, t).crc.Some?
    ensures var f := MatchFrame(t).value;
            && f.crc.Some? && FourHex(f.crc.value) && |f.crc.value| == 4
            && Crc16(Encode(t[..f.bang + 1])) as int == HexValue(f.crc.value)
  {
    hide RecordsOf, SplitLines, Encode, Crc16, HexValue, DataStart, BangFrom;
  }

  /** When the framing survives: the corrupted text has a line end in its header part, and no `!`
      before the old one. */
  lemma FramingSurvives(t: string, t': string, i: nat)
    requires MatchFrame(t).Some? && |t'| == |t|
    requires var e := MatchFrame(t).value.bang;
             && 5 <= i < e && !NotLineEnd(t'[i])
             && t'[e] == '!' && forall k :: 0 <= k < e ==> t'[k] != '!'
    ensures KeepsFraming(t, t')
  {
    if MatchFrame(t').Some? {
      DataStartsEarly(t', i, MatchFrame(t).value.bang);
    }
  }

  lemma DataStartsEarly(t: string, i: nat, e: nat)
    requires DataStart(t).Some? && 5 <= i < e < |t| && !NotLineEnd(t[i]) && t[e] == '!'
    ensures DataStart(t).value <= e
  {
    var start := DataStart(t).value;
    var h := start - 4;
    assert t[i] == t[5..][i - 5];
    assert h <= i;
    var four := t[h..h + 4];
    assert four == "\r\n\r\n";
    assert forall k :: h <= k < h + 4 ==> t[k] == four[k - h];
  }

  /** What the optional checksum lets through: turning the last `)` of a line into `!`, one bit,
      ends the data there and leaves no checksum to verify. */
  lemma ForgedEndIsUnchecked(t: string, k: nat)
    requires MatchFrame(t).Some?
    requires DataStart(t).value <= k < MatchFrame(t).value.bang && t[k] == ')' && EndsHere(t[k + 1..])
    ensures var f := MatchFrame(t).value;
            && k < |t|
            && MatchFrame(t[k := '!']) == Some(Frame(f.model, f.device, t[DataStart(t).value..k], k, None))
  {
    hide DataStart, BangFrom, FourHex, EndsHere;
    var start := DataStart(t).value;
    var t' := t[k := '!'];
    assert t'[..start] == t[..start];
    SameHeader(t, t', start);
    var data, after := t[start..k], t[k + 1..];
    assert t'[start..] == data + "!" + after;
    BangOf(t', start, data, after);
    NoHexAtEnd(after);
    assert t'[1..4] == t[1..4] && t'[5..start - 4] == t[5..start - 4];
  }

  lemma NoHexAtEnd(s: string)
    requires EndsHere(s)
    ensures !FourHex(s)
  {
  }

  lemma {:induction false} EncodeConcat(a: string, b: string)
    ensures Encode(a + b) == Encode(a) + Encode(b)
    decreases |b|
  {
    hide EncodeChar;
    if b == [] {
      assert a + b == a;
    } else {
      var n := |b| - 1;
      assert (a + b)[..|a| + n] == a + b[..n];
      EncodeConcat(a, b[..n]);
    }
  }

  lemma EncodeAround(t: string, k: nat)
    requires k < |t|
    ensures Encode(t) == Encode(t[..k]) + (EncodeChar(t[k]) + Encode(t[k + 1..]))
  {
    hide EncodeChar, Encode;
    SplitAround(t, k);
    EncodeConcat(t[..k], [t[k]] + t[k + 1..]);
    EncodeConcat([t[k]], t[k + 1..]);
    EncodeOne(t[k]);
  }

  lemma SplitAround(t: string, k: nat)
    requires k < |t|
    ensures t == t[..k] + ([t[k]] + t[k + 1..])
  {
  }

  lemma EncodeOne(c: char)
    ensures Encode([c]) == EncodeChar(c)
  {
    hide EncodeChar;
    assert [c][..0] == [];
  }

  /** It is one bit: on the wire the two telegrams differ in one byte, by 0x08. */
  lemma ForgedEndIsOneBit(t: string, k: nat)
    requires k < |t| && t[k] == ')'
    ensures var a, b := Encode(t), Encode(t[k := '!']);
      && |a| == |b|
      && exists p :: 0 <= p < |a| && ByteXor(a[p], b[p]) == 0x08
                     && forall i :: 0 <= i < |a| && i != p ==> a[i] == b[i]
  {
    hide Encode, ByteXor;
    var forged := t[k := '!'];
    assert forged[..k] == t[..k] && forged[k + 1..] == t[k + 1..];
    EncodeAround(t, k);
    EncodeAround(forged, k);
    var p := |Encode(t[..k])|;
    OneBit();
    assert Encode(t)[p] == 0x29 && Encode(forged)[p] == 0x21;
  }

  lemma OneBit()
    ensures EncodeChar(')') == [0x29] && EncodeChar('!') == [0x21] && ByteXor(0x29, 0x21) == 0x08
  {
  }

  /** The header does not look beyond the start of the data. */
  lemma SameHeader(t: string, t': string, start: nat)
    requires DataStart(t) == Some(start) && |t'| == |t| && t'[..start] == t[..start]
    ensures DataStart(t') == Some(start)
  {
    var h := start - 4;
    forall i | 0 <= i < start ensures t'[i] == t[i] {
      assert t'[i] == t'[..start][i] && t[i] == t[..start][i];
    }
    assert t'[1..5] == t[1..5];
    assert t'[h..h + 4] == t[h..h + 4] == "\r\n\r\n";
    assert t[5..] == t[5..h] + t[h..] && t'[5..] == t[5..h] + t'[h..];
    assert t[h] == t[h..h + 4][0] == '\r';
    forall i | 5 <= i < h ensures NotLineEnd(t[i]) {
      assert t[i] == t[5..][i - 5];
    }
    RunOf(NotLineEnd, t[5..h], t'[h..]);
  }

  /** So that one-bit corruption of a telegram is refused exactly when no line before it is
      readable. */
  lemma ForgedEndRejectedExactlyWhen<V>(conv: string -> V, t: string, k: nat)
    requires MatchFrame(t).Some?
    requires DataStart(t).value <= k < MatchFrame(t).value.bang && t[k] == ')' && EndsHere(t[k + 1..])
    ensures k < |t|
    ensures ParseText(conv, t[k := '!']) == Rejected
       <==> RecordsOf(conv, SplitLines(t[DataStart(t).value..k])) == []
  {
    hide DataStart, BangFrom, Checksum, RecordsOf, SplitLines, Encode, Crc16;
    ForgedEndIsUnchecked(t, k);
  }
}
