/** The DSMR telegram parser (parsers/obis.py): the four patterns as direct matchers, the record
    parser, and `OBISParser.parse`; beside them the natural printer of a telegram.

    `\w` is the ASCII word class. `conv` stands for `string_to_type`: what it makes of a piece of
    text is opaque here. */
module Obis {
  import opened Options
  import opened Crc

  datatype Block<V> = Block(value: V, unit: Option<V>)

  datatype Record<V> = Record(medium: V, channel: V, cls: V, instance: V, attribute: V, data: seq<Block<V>>)

  /** What `parse` returns: the empty dict, or a telegram. */
  datatype Parsed<V> = Rejected | Telegram(model: V, device: V, data: seq<Record<V>>, crc: Option<string>)

  // --- characters ------------------------------------------------------------

  predicate IsWord(c: char) {
    'a' <= c <= 'z' || 'A' <= c <= 'Z' || '0' <= c <= '9' || c == '_'
  }

  predicate AllWord(s: string) {
    forall i :: 0 <= i < |s| ==> IsWord(s[i])
  }

  predicate IsHex(c: char) {
    '0' <= c <= '9' || 'A' <= c <= 'F' || 'a' <= c <= 'f'
  }

  function HexDigit(c: char): (d: nat)
    requires IsHex(c)
    ensures d < 16
  {
    if c <= '9' then c as int - '0' as int
    else if c <= 'F' then c as int - 'A' as int + 10
    else c as int - 'a' as int + 10
  }

  /** `int(s, 16)` of four hexadecimal digits. */
  function HexValue(s: string): nat
    requires |s| == 4 && forall i :: 0 <= i < 4 ==> IsHex(s[i])
  {
    ((HexDigit(s[0]) * 16 + HexDigit(s[1])) * 16 + HexDigit(s[2])) * 16 + HexDigit(s[3])
  }

  predicate ValueChar(c: char) {
    c != ')' && c != '*' && c != '\r' && c != '\n'
  }

  /** How many leading characters of `s` satisfy `p`. */
  function Run(p: char -> bool, s: string): (n: nat)
    ensures n <= |s|
    ensures forall i :: 0 <= i < n ==> p(s[i])
    ensures n < |s| ==> !p(s[n])
    decreases |s|
  {
    if s == [] || !p(s[0]) then 0 else 1 + Run(p, s[1..])
  }

  // --- a record ------------------------------------------------------------------

  /** `\w+` followed by `sep`: the word, and what follows the separator. */
  function Field(s: string, sep: char): Option<(string, string)> {
    var n := Run(IsWord, s);
    if n > 0 && n < |s| && s[n] == sep then Some((s[..n], s[n + 1..])) else None
  }

  datatype Reference = Reference(medium: string, channel: string, cls: string, instance: string, attribute: string)

  /** OBIS_PATTERN at the start of a line: the reference, and the rest of the line. */
  function MatchObis(line: string): Option<(Reference, string)> {
    match Field(line, '-')
    case None => None
    case Some((medium, s1)) =>
      match Field(s1, ':')
      case None => None
      case Some((channel, s2)) =>
        match Field(s2, '.')
        case None => None
        case Some((cls, s3)) =>
          match Field(s3, '.')
          case None => None
          case Some((instance, s4)) =>
            var n := Run(IsWord, s4);
            if n > 0
            then Some((Reference(medium, channel, cls, instance, s4[..n]), s4[n..]))
            else None
  }

  /** The optional separator after a block. */
  function SkipSeparator(s: string): (r: string)
    ensures |r| <= |s|
  {
    if |s| > 0 && s[0] == ' ' then s[1..]
    else if |s| > 1 && s[0] == '\r' && s[1] == '\n' then s[2..]
    else s
  }

  /** VALUE_PATTERN at the start of `s`: the block's text, and what follows it. */
  function MatchValue(s: string): (m: Option<(Block<string>, string)>)
    ensures m.Some? ==> |m.value.1| < |s|
  {
    if s == [] || s[0] != '(' then None
    else
      var inner := s[1..];
      var n := Run(ValueChar, inner);
      if n == |inner| then None
      else if inner[n] == ')' then Some((Block(inner[..n], None), SkipSeparator(inner[n + 1..])))
      else if inner[n] == '*' then
        match Field(inner[n + 1..], ')')
        case None => None
        case Some((unit, rest)) => Some((Block(inner[..n], Some(unit)), SkipSeparator(rest)))
      else None
  }

  function ConvertBlock<V>(conv: string -> V, b: Block<string>): Block<V> {
    Block(conv(b.value), if b.unit.Some? then Some(conv(b.unit.value)) else None)
  }

  /** The value blocks at the start of `s`, and what is left when there is none. */
  function MatchBlocks<V>(conv: string -> V, s: string): (seq<Block<V>>, string)
    decreases |s|
  {
    match MatchValue(s)
    case None => ([], s)
    case Some((b, rest)) =>
      var (more, left) := MatchBlocks(conv, rest);
      ([ConvertBlock(conv, b)] + more, left)
  }

  function ConvertReference<V>(conv: string -> V, o: Reference, blocks: seq<Block<V>>): Record<V> {
    Record(conv(o.medium), conv(o.channel), conv(o.cls), conv(o.instance), conv(o.attribute), blocks)
  }

  /** One record, or None when the line does not conform: all or nothing. */
  function RecordOf<V>(conv: string -> V, line: string): Option<Record<V>> {
    match MatchObis(line)
    case None => None
    case Some((o, rest)) =>
      var (blocks, left) := MatchBlocks(conv, rest);
      if blocks == [] || left != [] then None else Some(ConvertReference(conv, o, blocks))
  }

  /** `_parse_record`. */
  method ParseRecord<V(==)>(conv: string -> V, line: string) returns (r: Option<Record<V>>)
    ensures r == RecordOf(conv, line)
  {
    hide MatchObis, MatchValue, ConvertBlock, ConvertReference;
    var obis := MatchObis(line);
    if obis.None? {
      return None;
    }
    var rest := obis.value.1;
    ghost var all := MatchBlocks(conv, rest);
    var blocks: seq<Block<V>> := [];
    var value := MatchValue(rest);
    while value.Some?
      invariant value == MatchValue(rest)
      invariant all.0 == blocks + MatchBlocks(conv, rest).0
      invariant all.1 == MatchBlocks(conv, rest).1
      decreases |rest|
    {
      var block := ConvertBlock(conv, value.value.0);
      assert MatchBlocks(conv, rest).0 == [block] + MatchBlocks(conv, value.value.1).0;
      rest := value.value.1;
      blocks := blocks + [block];
      value := MatchValue(rest);
    }
    assert all.0 == blocks && all.1 == rest;
    if blocks == [] || rest != [] {
      return None;
    }
    return Some(ConvertReference(conv, obis.value.0, blocks));
  }

  // --- lines -------------------------------------------------------------------------

  /** A line break at place `i`: how many characters it takes, 0 if there is none. */
  function BreakAt(s: string, i: nat): (n: nat)
    requires i < |s|
    ensures n <= 2 && i + n <= |s|
  {
    if s[i] == '\n' then 1
    else if s[i] == '\r' && i + 1 < |s| && s[i + 1] == '\n' then 2
    else 0
  }

  /** The first line break at or after `i`; the length when there is none. */
  function FirstBreak(s: string, i: nat): (k: nat)
    requires i <= |s|
    ensures i <= k <= |s|
    ensures forall j :: i <= j < k ==> BreakAt(s, j) == 0
    ensures k < |s| ==> BreakAt(s, k) > 0
    decreases |s| - i
  {
    if i == |s| || BreakAt(s, i) > 0 then i else FirstBreak(s, i + 1)
  }

  /** LINE_PATTERN.split. */
  function SplitLines(s: string): (lines: seq<string>)
    ensures lines != []
    decreases |s|
  {
    var k := FirstBreak(s, 0);
    if k == |s| then [s] else [s[..k]] + SplitLines(s[k + BreakAt(s, k)..])
  }

  /** The records of the lines that have one, in order. */
  function RecordsOf<V>(conv: string -> V, lines: seq<string>): seq<Record<V>> {
    if lines == [] then []
    else
      var before := RecordsOf(conv, lines[..|lines| - 1]);
      var line := lines[|lines| - 1];
      if line != "" && RecordOf(conv, line).Some? then before + [RecordOf(conv, line).value] else before
  }

  // --- the frame ------------------------------------------------------------------------

  /** What FULL_PATTERN captures; `bang` is where the `!` is. */
  datatype Frame = Frame(model: string, device: string, data: string, bang: nat, crc: Option<string>)

  predicate NotLineEnd(c: char) {
    c != '\r' && c != '\n'
  }

  predicate NotBang(c: char) {
    c != '!'
  }

  /** `(?=\r\n|\n|$)` in front of `s`. */
  predicate EndsHere(s: string) {
    s == "" || BreakAt(s, 0) > 0
  }

  predicate FourHex(s: string) {
    |s| >= 4 && forall i :: 0 <= i < 4 ==> IsHex(s[i])
  }

  /** Where the data starts: after `/`, four word characters, free text up to the first line end,
      and an empty line. */
  function DataStart(t: string): (start: Option<nat>)
    ensures start.Some? ==> 9 <= start.value <= |t|
  {
    if |t| < 5 || t[0] != '/' || !AllWord(t[1..5]) then None
    else
      var h := 5 + Run(NotLineEnd, t[5..]);
      if h + 4 <= |t| && t[h..h + 4] == "\r\n\r\n" then Some(h + 4) else None
  }

  /** The first `!` at or after `start`; the length when there is none. */
  function BangFrom(t: string, start: nat): (bang: nat)
    requires start <= |t|
    ensures start <= bang <= |t|
    ensures forall i :: start <= i < bang ==> t[i] != '!'
    ensures bang < |t| ==> t[bang] == '!'
  {
    var n := Run(NotBang, t[start..]);
    assert forall i :: start <= i < start + n ==> t[i] == t[start..][i - start];
    start + n
  }

  /** What follows the `!`: None when it fits neither form, else the checksum if there is one. */
  function Checksum(after: string): (c: Option<Option<string>>)
    ensures c.Some? && c.value.Some? ==> |c.value.value| == 4 && FourHex(c.value.value)
  {
    if FourHex(after) && EndsHere(after[4..]) then Some(Some(after[..4]))
    else if EndsHere(after) then Some(None)
    else None
  }

  /** Where the pieces of a frame are in its telegram. */
  predicate FrameFits(t: string, f: Frame) {
    && DataStart(t).Some? && f.bang == BangFrom(t, DataStart(t).value) < |t|
    && Checksum(t[f.bang + 1..]) == Some(f.crc)
    && f.data == t[DataStart(t).value..f.bang]
    && f.model == t[1..4] && f.device == t[5..DataStart(t).value - 4]
  }

  /** FULL_PATTERN at the start of a transmission. */
  function MatchFrame(t: string): (f: Option<Frame>)
    ensures f.Some? ==> FrameFits(t, f.value)
  {
    match DataStart(t)
    case None => None
    case Some(start) =>
      var bang := BangFrom(t, start);
      if bang == |t| then None
      else match Checksum(t[bang + 1..])
        case None => None
        case Some(crc) => Some(Frame(t[1..4], t[5..start - 4], t[start..bang], bang, crc))
  }

  // --- bytes -------------------------------------------------------------------------------

  /** One character in UTF-8. */
  function EncodeChar(c: char): seq<Byte> {
    var n := c as int;
    if n < 0x80 then [n as Byte]
    else if n < 0x800 then [(0xC0 + n / 0x40) as Byte, (0x80 + n % 0x40) as Byte]
    else if n < 0x1_0000 then
      [(0xE0 + n / 0x1000) as Byte, (0x80 + n / 0x40 % 0x40) as Byte, (0x80 + n % 0x40) as Byte]
    else
      [(0xF0 + n / 0x4_0000) as Byte, (0x80 + n / 0x1000 % 0x40) as Byte,
       (0x80 + n / 0x40 % 0x40) as Byte, (0x80 + n % 0x40) as Byte]
  }

  /** `str.encode()`. */
  function Encode(s: string): seq<Byte> {
    if s == [] then [] else Encode(s[..|s| - 1]) + EncodeChar(s[|s| - 1])
  }

  // --- parsing ---------------------------------------------------------------------------------

  /** The checksum is absent, or is that of everything from `/` through `!`. */
  predicate ChecksumHolds(t: string, f: Frame)
    requires MatchFrame(t) == Some(f)
  {
    f.crc.None? || Crc16(Encode(t[..f.bang + 1])) as int == HexValue(f.crc.value)
  }

  /** `parse`. */
  function ParseText<V>(conv: string -> V, t: string): Parsed<V> {
    match MatchFrame(t)
    case None => Rejected
    case Some(f) =>
      if !ChecksumHolds(t, f) then Rejected
      else
        var records := RecordsOf(conv, SplitLines(f.data));
        if records == [] then Rejected
        else Telegram(conv(f.model), conv(f.device), records, f.crc)
  }

  /** The loop of `parse` over the lines of the data. */
  method ParseLines<V(==)>(conv: string -> V, lines: seq<string>) returns (records: seq<Record<V>>)
    ensures records == RecordsOf(conv, lines)
  {
    hide RecordOf;
    records := [];
    var i := 0;
    while i < |lines|
      invariant 0 <= i <= |lines|
      invariant records == RecordsOf(conv, lines[..i])
    {
      var line := lines[i];
      assert lines[..i + 1][..i] == lines[..i];
      i := i + 1;
      if line == "" {
        continue;
      }
      var record := ParseRecord(conv, line);
      if record.None? {
        continue;
      }
      records := records + [record.value];
    }
    assert lines[..i] == lines;
  }

  method Parse<V(==)>(conv: string -> V, transmission: string) returns (p: Parsed<V>)
    ensures p == ParseText(conv, transmission)
  {
    hide RecordsOf, MatchFrame, SplitLines, Crc16, Encode, HexValue;
    var full := MatchFrame(transmission);
    if full.None? {
      return Rejected;
    }
    var f := full.value;
    if f.crc.Some? {
      var given := HexValue(f.crc.value);
      var computed := Crc16Arc(Encode(transmission[..f.bang + 1]));
      if computed as int != given {
        return Rejected;
      }
    }
    var records := ParseLines(conv, SplitLines(f.data));
    if records == [] {
      return Rejected;
    }
    return Telegram(conv(f.model), conv(f.device), records, f.crc);
  }
}
