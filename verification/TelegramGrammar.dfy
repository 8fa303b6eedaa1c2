/** The grammar of a telegram written forwards: what a record, a frame and the lines of its data look
    like. The parser accepts exactly what it describes, and reads exactly the parts it names. */
module TelegramGrammar {
  import opened Options
  import opened Crc
  import opened Obis
  import opened Telegrams

  // --- characters -------------------------------------------------------------------------

  const DIGITS: string := "0123456789"
  const UPPER: string := "ABCDEFGHIJKLMNOPQRSTUVWXYZ"
  const LOWER: string := "abcdefghijklmnopqrstuvwxyz"

  /** A hexadecimal digit is its place among the sixteen, in either case. */
  lemma HexDigitIsItsPlace(c: char)
    requires IsHex(c)
    ensures c == (DIGITS + UPPER)[HexDigit(c)] || c == (DIGITS + LOWER)[HexDigit(c)]
  {
  }

  /** Four of them are a number with its most significant digit first. */
  lemma HexValueIsPositional(s: string)
    requires |s| == 4 && forall i :: 0 <= i < 4 ==> IsHex(s[i])
    ensures HexValue(s) ==
            0x1000 * HexDigit(s[0]) + 0x100 * HexDigit(s[1]) + 0x10 * HexDigit(s[2]) + HexDigit(s[3])
    ensures HexValue("1aB0") == 0x1AB0
  {
  }

  // --- a record --------------------------------------------------------------------------------

  predicate Separator(sep: string) {
    sep == "" || sep == " " || sep == "\r\n"
  }

  predicate WellFormedBlock(b: Block<string>) {
    (forall i :: 0 <= i < |b.value| ==> ValueChar(b.value[i])) && (b.unit.Some? ==> Word1(b.unit.value))
  }

  /** A reference of five words, at least one block, and after each block a separator or none. */
  predicate Conforms(r: Record<string>, seps: seq<string>) {
    && Word1(r.medium) && Word1(r.channel) && Word1(r.cls) && Word1(r.instance) && Word1(r.attribute)
    && r.data != [] && |seps| == |r.data|
    && (forall i :: 0 <= i < |r.data| ==> WellFormedBlock(r.data[i]) && Separator(seps[i]))
  }

  function SpellBlocks(bs: seq<Block<string>>, seps: seq<string>): string
    requires |seps| == |bs|
  {
    if bs == [] then "" else PrintBlock(bs[0]) + (seps[0] + SpellBlocks(bs[1..], seps[1..]))
  }

  function Spell(r: Record<string>, seps: seq<string>): string
    requires |seps| == |r.data|
  {
    r.medium + ['-'] + (r.channel + [':'] + (r.cls + ['.'] + (r.instance + ['.'] + (r.attribute
      + SpellBlocks(r.data, seps)))))
  }

  lemma SkipsOne(sep: string, rest: string)
    requires Separator(sep) && (rest == "" || rest[0] == '(')
    ensures SkipSeparator(sep + rest) == rest
  {
    assert (sep + rest)[|sep|..] == rest;
  }

  lemma SpelledStart(bs: seq<Block<string>>, seps: seq<string>)
    requires |seps| == |bs|
    ensures SpellBlocks(bs, seps) == "" || SpellBlocks(bs, seps)[0] == '('
  {
  }

  lemma MatchSpelledBlock(b: Block<string>, sep: string, rest: string)
    requires WellFormedBlock(b) && Separator(sep) && (rest == "" || rest[0] == '(')
    ensures MatchValue(PrintBlock(b) + (sep + rest)) == Some((b, rest))
  {
    hide MatchValue, SkipSeparator, Separator;
    SkipsOne(sep, rest);
    if b.unit.None? {
      MatchBare(b.value, sep + rest);
      assert PrintBlock(b) == "(" + b.value + ")";
    } else {
      MatchMeasured(b.value, b.unit.value, sep + rest);
      assert PrintBlock(b) == "(" + b.value + "*" + b.unit.value + ")";
    }
  }

  lemma {:induction false} MatchSpelledBlocks<V>(conv: string -> V, bs: seq<Block<string>>, seps: seq<string>)
    requires |seps| == |bs|
    requires forall i :: 0 <= i < |bs| ==> WellFormedBlock(bs[i]) && Separator(seps[i])
    ensures MatchBlocks(conv, SpellBlocks(bs, seps)) == (Blocks(conv, bs), "")
    decreases |bs|
  {
    hide MatchValue, PrintBlock, WellFormedBlock, Separator;
    if bs == [] {
      assert MatchValue("") == None by { EmptyHasNoValue(); }
    } else {
      MatchSpelledBlocks(conv, bs[1..], seps[1..]);
      assert Blocks(conv, bs) == [Blocks(conv, bs)[0]] + Blocks(conv, bs[1..]);
      SpelledStart(bs[1..], seps[1..]);
      MatchSpelledBlock(bs[0], seps[0], SpellBlocks(bs[1..], seps[1..]));
    }
  }

  lemma MatchSpelledObis(r: Record<string>, seps: seq<string>)
    requires Conforms(r, seps)
    ensures MatchObis(Spell(r, seps))
              == Some((Reference(r.medium, r.channel, r.cls, r.instance, r.attribute), SpellBlocks(r.data, seps)))
  {
    hide Field, Word1, WellFormedBlock, SpellBlocks, Separator;
    var p4 := r.attribute + SpellBlocks(r.data, seps);
    var p3 := r.instance + ['.'] + p4;
    var p2 := r.cls + ['.'] + p3;
    var p1 := r.channel + [':'] + p2;
    FieldOf(r.medium, '-', p1);
    FieldOf(r.channel, ':', p2);
    FieldOf(r.cls, '.', p3);
    FieldOf(r.instance, '.', p4);
    SpelledRun(r.attribute, r.data, seps);
    assert p4[..|r.attribute|] == r.attribute && p4[|r.attribute|..] == SpellBlocks(r.data, seps);
  }

  lemma SpelledRun(w: string, bs: seq<Block<string>>, seps: seq<string>)
    requires Word1(w) && |seps| == |bs|
    ensures |w| > 0 && Run(IsWord, w + SpellBlocks(bs, seps)) == |w|
  {
    hide SpellBlocks;
    SpelledStart(bs, seps);
    RunOf(IsWord, w, SpellBlocks(bs, seps));
  }

  /** Whatever the grammar spells is read as what was spelled. */
  lemma SpelledIsParsed<V>(conv: string -> V, r: Record<string>, seps: seq<string>)
    requires Conforms(r, seps)
    ensures RecordOf(conv, Spell(r, seps)) == Some(Convert(conv, r))
  {
    hide MatchObis, MatchBlocks, Spell, WellFormedBlock, Separator;
    MatchSpelledObis(r, seps);
    MatchSpelledBlocks(conv, r.data, seps);
  }

  lemma FieldIsSpelled(s: string, sep: char)
    requires Field(s, sep).Some?
    ensures var (w, rest) := Field(s, sep).value; Word1(w) && s == w + [sep] + rest
  {
    var n := Run(IsWord, s);
    assert s == s[..n] + [s[n]] + s[n + 1..];
  }

  lemma SeparatorIsSpelled(s: string) returns (sep: string)
    ensures Separator(sep) && s == sep + SkipSeparator(s)
  {
    sep := s[..|s| - |SkipSeparator(s)|];
  }

  /** Where a matched block ends: the text from its `(`, and whether a unit follows its value. */
  lemma ValueParts(s: string) returns (n: nat)
    requires MatchValue(s).Some?
    ensures n + 1 < |s| && s[0] == '(' && (s[n + 1] == ')' || s[n + 1] == '*')
    ensures var (b, rest) := MatchValue(s).value;
      && b.value == s[1..n + 1] && (forall i :: 0 <= i < |b.value| ==> ValueChar(b.value[i]))
      && (s[n + 1] == ')' ==> b.unit == None && rest == SkipSeparator(s[n + 2..]))
      && (s[n + 1] == '*' ==> Field(s[n + 2..], ')').Some? && b.unit == Some(Field(s[n + 2..], ')').value.0)
                              && rest == SkipSeparator(Field(s[n + 2..], ')').value.1))
  {
    hide SkipSeparator, Field;
    var inner := s[1..];
    n := Run(ValueChar, inner);
    assert inner[..n] == s[1..n + 1] && inner[n + 1..] == s[n + 2..];
    assert forall i :: 0 <= i < n ==> inner[..n][i] == inner[i];
  }

  lemma ValueIsSpelled(s: string) returns (sep: string)
    requires MatchValue(s).Some?
    ensures Separator(sep)
    ensures var (b, rest) := MatchValue(s).value; WellFormedBlock(b) && s == PrintBlock(b) + (sep + rest)
  {
    hide Separator, SkipSeparator, Field, MatchValue, Word1, ValueChar;
    var n := ValueParts(s);
    var (b, rest) := MatchValue(s).value;
    assert s == "(" + b.value + ([s[n + 1]] + s[n + 2..]);
    if s[n + 1] == ')' {
      sep := SeparatorIsSpelled(s[n + 2..]);
      assert s == "(" + b.value + "" + ")" + (sep + rest);
    } else {
      FieldIsSpelled(s[n + 2..], ')');
      var (unit, more) := Field(s[n + 2..], ')').value;
      sep := SeparatorIsSpelled(more);
      MeasuredText(b.value, unit, s, sep + rest);
    }
  }

  lemma MeasuredText(value: string, unit: string, s: string, rest: string)
    requires s == "(" + value + (['*'] + (unit + [')'] + rest))
    ensures s == PrintBlock(Block(value, Some(unit))) + rest
  {
    assert s == "(" + value + ("*" + unit) + ")" + rest;
  }

  lemma {:induction false} BlocksAreSpelled<V>(conv: string -> V, s: string)
    returns (bs: seq<Block<string>>, seps: seq<string>)
    ensures |seps| == |bs| && forall i :: 0 <= i < |bs| ==> WellFormedBlock(bs[i]) && Separator(seps[i])
    ensures MatchBlocks(conv, s).0 == Blocks(conv, bs) && s == SpellBlocks(bs, seps) + MatchBlocks(conv, s).1
    decreases |s|
  {
    hide MatchValue, WellFormedBlock, Separator, PrintBlock;
    if MatchValue(s).None? {
      bs, seps := [], [];
      assert s == "" + s;
    } else {
      var (b, rest) := MatchValue(s).value;
      var sep := ValueIsSpelled(s);
      var more, others := BlocksAreSpelled(conv, rest);
      bs, seps := [b] + more, [sep] + others;
      assert bs[1..] == more && seps[1..] == others;
      assert Blocks(conv, bs) == [Blocks(conv, bs)[0]] + Blocks(conv, more);
      assert s == SpellBlocks(bs, seps) + MatchBlocks(conv, rest).1;
    }
  }

  lemma ObisIsSpelled(line: string)
    requires MatchObis(line).Some?
    ensures var (o, rest) := MatchObis(line).value;
      && Word1(o.medium) && Word1(o.channel) && Word1(o.cls) && Word1(o.instance) && Word1(o.attribute)
      && line == o.medium + ['-'] + (o.channel + [':'] + (o.cls + ['.'] + (o.instance + ['.'] + (o.attribute + rest))))
  {
    hide Field, Word1;
    FieldIsSpelled(line, '-');
    var s1 := Field(line, '-').value.1;
    FieldIsSpelled(s1, ':');
    var s2 := Field(s1, ':').value.1;
    FieldIsSpelled(s2, '.');
    var s3 := Field(s2, '.').value.1;
    FieldIsSpelled(s3, '.');
    WordIsSpelled(Field(s3, '.').value.1);
  }

  lemma WordIsSpelled(s: string)
    ensures var n := Run(IsWord, s); s == s[..n] + s[n..] && (n > 0 ==> Word1(s[..n]))
  {
  }

  /** Whatever is read was spelled by the grammar. */
  lemma ParsedIsSpelled<V>(conv: string -> V, line: string) returns (r: Record<string>, seps: seq<string>)
    requires RecordOf(conv, line).Some?
    ensures Conforms(r, seps) && line == Spell(r, seps) && RecordOf(conv, line) == Some(Convert(conv, r))
  {
    hide MatchObis, MatchBlocks, WellFormedBlock, Separator, SpellBlocks, Word1;
    ObisIsSpelled(line);
    var (o, rest) := MatchObis(line).value;
    var bs;
    bs, seps := BlocksAreSpelled(conv, rest);
    r := Record(o.medium, o.channel, o.cls, o.instance, o.attribute, bs);
    assert SpellBlocks(bs, seps) + "" == SpellBlocks(bs, seps);
  }

  predicate Spells(r: Record<string>, seps: seq<string>, line: string) {
    Conforms(r, seps) && line == Spell(r, seps)
  }

  /** A line is a record exactly when the grammar spells it. */
  lemma RecordExactlyWhen<V>(conv: string -> V, line: string)
    ensures RecordOf(conv, line).Some? <==> exists r, seps :: Spells(r, seps, line)
  {
    hide RecordOf, Spell, Conforms;
    if RecordOf(conv, line).Some? {
      var r, seps := ParsedIsSpelled(conv, line);
      assert Spells(r, seps, line);
    }
    if exists r, seps :: Spells(r, seps, line) {
      var r, seps :| Spells(r, seps, line);
      SpelledIsParsed(conv, r, seps);
    }
  }

  // --- lines -----------------------------------------------------------------------------------------

  /** Lines without line ends, and the line ends between them. A line before a bare `\n` does not end in
      `\r`: the two would be one line end. */
  predicate Separated(lines: seq<string>, breaks: seq<string>) {
    && |lines| == |breaks| + 1
    && (forall i :: 0 <= i < |lines| ==> '\n' !in lines[i])
    && (forall i :: 0 <= i < |breaks| ==> breaks[i] == "\r\n" || breaks[i] == "\n")
    && (forall i :: 0 <= i < |breaks| ==> breaks[i] == "\n" && lines[i] != "" ==> lines[i][|lines[i]| - 1] != '\r')
  }

  function Together(lines: seq<string>, breaks: seq<string>): string
    requires |lines| == |breaks| + 1
  {
    if breaks == [] then lines[0] else lines[0] + (breaks[0] + Together(lines[1..], breaks[1..]))
  }

  lemma {:induction false} NoBreak(line: string, i: nat)
    requires i <= |line| && '\n' !in line
    ensures FirstBreak(line, i) == |line|
    decreases |line| - i
  {
    if i < |line| {
      assert line[i] in line;
      assert i + 1 < |line| ==> line[i + 1] in line;
      NoBreak(line, i + 1);
    }
  }

  lemma {:induction false} BreakAfter(line: string, brk: string, rest: string, i: nat)
    requires i <= |line| && '\n' !in line && (brk == "\r\n" || brk == "\n")
    requires brk == "\n" && line != "" ==> line[|line| - 1] != '\r'
    ensures FirstBreak(line + (brk + rest), i) == |line| && BreakAt(line + (brk + rest), |line|) == |brk|
    decreases |line| - i
  {
    var s := line + (brk + rest);
    assert s[|line|] == brk[0] && (|brk| == 2 ==> s[|line| + 1] == '\n');
    if i < |line| {
      assert line[i] in line && s[i] == line[i];
      assert i + 1 < |line| ==> line[i + 1] in line && s[i + 1] == line[i + 1];
      BreakAfter(line, brk, rest, i + 1);
    }
  }

  lemma FirstOfSplit(s: string, k: nat)
    requires FirstBreak(s, 0) == k < |s|
    ensures SplitLines(s) == [s[..k]] + SplitLines(s[k + BreakAt(s, k)..])
  {
    hide BreakAt, FirstBreak;
  }

  lemma NoneOfSplit(s: string)
    requires FirstBreak(s, 0) == |s|
    ensures SplitLines(s) == [s]
  {
    hide BreakAt, FirstBreak;
  }

  lemma OfSeparated(lines: seq<string>, breaks: seq<string>)
    requires Separated(lines, breaks)
    ensures '\n' !in lines[0]
    ensures breaks == [] ==> lines == [lines[0]]
    ensures breaks != [] ==>
              && lines == [lines[0]] + lines[1..] && Separated(lines[1..], breaks[1..])
              && (breaks[0] == "\r\n" || breaks[0] == "\n")
              && (breaks[0] == "\n" && lines[0] != "" ==> lines[0][|lines[0]| - 1] != '\r')
  {
  }

  /** Splitting undoes putting lines together, whichever line ends are between them. */
  lemma {:induction false} SplitTogether(lines: seq<string>, breaks: seq<string>)
    requires Separated(lines, breaks)
    ensures SplitLines(Together(lines, breaks)) == lines
    decreases |breaks|
  {
    hide BreakAt, FirstBreak, SplitLines, Separated;
    OfSeparated(lines, breaks);
    if breaks == [] {
      NoBreak(lines[0], 0);
      NoneOfSplit(lines[0]);
    } else {
      SplitTogether(lines[1..], breaks[1..]);
      SplitFirst(lines[0], breaks[0], Together(lines[1..], breaks[1..]));
    }
  }

  lemma SplitFirst(line: string, brk: string, rest: string)
    requires '\n' !in line && (brk == "\r\n" || brk == "\n")
    requires brk == "\n" && line != "" ==> line[|line| - 1] != '\r'
    ensures SplitLines(line + (brk + rest)) == [line] + SplitLines(rest)
  {
    hide BreakAt, FirstBreak, SplitLines;
    BreakAfter(line, brk, rest, 0);
    var s := line + (brk + rest);
    FirstOfSplit(s, |line|);
    assert s[..|line|] == line && s[|line| + |brk|..] == rest;
  }

  lemma NoNewline(s: string, k: nat)
    requires k <= |s| && forall j :: 0 <= j < k ==> BreakAt(s, j) == 0
    ensures '\n' !in s[..k]
  {
    forall j | 0 <= j < k ensures s[j] != '\n' {
      assert BreakAt(s, j) == 0;
    }
  }

  lemma FirstIsALine(s: string)
    ensures '\n' !in s[..FirstBreak(s, 0)]
  {
    hide FirstBreak;
    NoNewline(s, FirstBreak(s, 0));
  }

  /** And every text is its lines put together. */
  lemma {:induction false} TogetherSplit(s: string) returns (breaks: seq<string>)
    ensures Separated(SplitLines(s), breaks) && Together(SplitLines(s), breaks) == s
    decreases |s|
  {
    hide SplitLines, Separated, BreakAt, FirstBreak;
    var k := FirstBreak(s, 0);
    FirstIsALine(s);
    if k == |s| {
      NoneOfSplit(s);
      breaks := [];
      assert s[..k] == s;
      OneLine(s);
    } else {
      FirstOfSplit(s, k);
      var n := BreakAt(s, k);
      var rest := s[k + n..];
      var others := TogetherSplit(rest);
      BreakIsNew(s, k);
      LongerSeparated(s[..k], s[k..k + n], SplitLines(rest), others);
      breaks := [s[k..k + n]] + others;
      assert s == s[..k] + (s[k..k + n] + rest);
    }
  }

  lemma OneLine(s: string)
    requires '\n' !in s
    ensures Separated([s], [])
  {
  }

  lemma BreakIsNew(s: string, k: nat)
    requires k < |s| && BreakAt(s, k) > 0 && forall j :: 0 <= j < k ==> BreakAt(s, j) == 0
    ensures var brk := s[k..k + BreakAt(s, k)];
      (brk == "\r\n" || brk == "\n") && (brk == "\n" && k > 0 ==> s[k - 1] != '\r')
  {
    if k > 0 {
      assert BreakAt(s, k - 1) == 0;
    }
  }

  lemma LongerSeparated(line: string, brk: string, lines: seq<string>, breaks: seq<string>)
    requires Separated(lines, breaks) && '\n' !in line && (brk == "\r\n" || brk == "\n")
    requires brk == "\n" && line != "" ==> line[|line| - 1] != '\r'
    ensures Separated([line] + lines, [brk] + breaks)
    ensures Together([line] + lines, [brk] + breaks) == line + (brk + Together(lines, breaks))
  {
    assert ([line] + lines)[1..] == lines && ([brk] + breaks)[1..] == breaks;
  }

  // --- the frame ------------------------------------------------------------------------------------------

  /** `t` is a frame with the parts of `f`: `z` is the baud rate character, `tail` what follows. */
  predicate Framed(t: string, f: Frame, z: char, tail: string) {
    && t == "/" + (f.model + [z]) + f.device + "\r\n\r\n"
            + (f.data + "!" + ((if f.crc.Some? then f.crc.value else "") + tail))
    && |f.model| == 3 && AllWord(f.model + [z])
    && '\r' !in f.device && '\n' !in f.device && '!' !in f.data
    && (f.crc.Some? ==> |f.crc.value| == 4 && FourHex(f.crc.value))
    && (tail == "" || tail[0] == '\n' || (|tail| > 1 && tail[..2] == "\r\n"))
    && f.bang == 9 + |f.device| + |f.data|
  }

  lemma FramedIsMatched(t: string, f: Frame, z: char, tail: string)
    requires Framed(t, f, z, tail)
    ensures MatchFrame(t) == Some(f)
  {
    hide FourHex, DataStart, BangFrom, Checksum, AllWord;
    var after := (if f.crc.Some? then f.crc.value else "") + tail;
    var head := f.model + [z];
    DataStartOf(head, f.device, f.data + "!" + after);
    BangOf(t, 9 + |f.device|, f.data, after);
    TailChecksum(f.crc, tail);
    assert head[..3] == f.model;
  }

  lemma TailChecksum(crc: Option<string>, tail: string)
    requires tail == "" || tail[0] == '\n' || (|tail| > 1 && tail[..2] == "\r\n")
    requires crc.Some? ==> |crc.value| == 4 && FourHex(crc.value)
    ensures Checksum((if crc.Some? then crc.value else "") + tail) == Some(crc)
  {
    assert |tail| > 1 && tail[..2] == "\r\n" ==> tail[0] == '\r' && tail[1] == '\n';
    if crc.Some? {
      ChecksumOf(crc.value, tail);
    } else {
      assert "" + tail == tail;
      NoHexAtEnd(tail);
    }
  }

  lemma MatchedIsFramed(t: string, f: Frame) returns (z: char, tail: string)
    requires MatchFrame(t) == Some(f)
    ensures Framed(t, f, z, tail)
  {
    hide FourHex, AllWord, Checksum, BangFrom, DataStart;
    var start := DataStart(t).value;
    z := t[4];
    tail := AfterBang(t[f.bang + 1..]);
    HeaderParts(t, start);
    DataParts(t, start, f.bang);
    assert t[1..4] + [z] == t[1..5];
    assert t == t[..start] + (t[start..f.bang] + "!" + t[f.bang + 1..]);
  }

  lemma DataParts(t: string, start: nat, bang: nat)
    requires start <= |t| && bang == BangFrom(t, start) < |t|
    ensures '!' !in t[start..bang] && t == t[..start] + (t[start..bang] + "!" + t[bang + 1..])
  {
    hide BangFrom;
    assert t == t[..start] + t[start..bang] + [t[bang]] + t[bang + 1..];
  }

  lemma HeaderParts(t: string, start: nat)
    requires DataStart(t) == Some(start)
    ensures AllWord(t[1..5]) && '\r' !in t[5..start - 4] && '\n' !in t[5..start - 4]
    ensures t[..start] == "/" + t[1..5] + t[5..start - 4] + "\r\n\r\n"
  {
    var h := start - 4;
    forall i | 5 <= i < h ensures NotLineEnd(t[i]) {
      assert t[i] == t[5..][i - 5];
    }
    assert t[..start] == [t[0]] + t[1..5] + t[5..h] + t[h..start];
  }

  lemma AfterBang(after: string) returns (tail: string)
    requires Checksum(after).Some?
    ensures var crc := Checksum(after).value;
      && after == (if crc.Some? then crc.value else "") + tail
      && (crc.Some? ==> |crc.value| == 4 && FourHex(crc.value))
    ensures tail == "" || tail[0] == '\n' || (|tail| > 1 && tail[..2] == "\r\n")
  {
    var crc := Checksum(after).value;
    tail := if crc.Some? then after[4..] else after;
    assert |tail| > 1 && tail[0] == '\r' && tail[1] == '\n' ==> tail[..2] == "\r\n";
    assert crc.Some? ==> after == after[..4] + after[4..];
  }

  /** The frame pattern matches exactly the texts of this form, and captures exactly these parts. */
  lemma FrameExactlyWhen(t: string, f: Frame)
    ensures MatchFrame(t) == Some(f) <==> exists z, tail :: Framed(t, f, z, tail)
  {
    hide MatchFrame, Framed;
    if MatchFrame(t) == Some(f) {
      var z, tail := MatchedIsFramed(t, f);
    }
    if exists z, tail :: Framed(t, f, z, tail) {
      var z, tail :| Framed(t, f, z, tail);
      FramedIsMatched(t, f, z, tail);
    }
  }

  // --- the whole transmission ----------------------------------------------------------------------------

  lemma {:induction false} RecordsOfConcat<V>(conv: string -> V, a: seq<string>, b: seq<string>)
    ensures RecordsOf(conv, a + b) == RecordsOf(conv, a) + RecordsOf(conv, b)
    decreases |b|
  {
    hide RecordOf;
    if b == [] {
      assert a + b == a;
    } else {
      var n := |b| - 1;
      assert (a + b)[..|a| + n] == a + b[..n];
      RecordsOfConcat(conv, a, b[..n]);
    }
  }

  lemma RecordsOfOne<V>(conv: string -> V, line: string)
    ensures RecordsOf(conv, [line]) ==
            if line != "" && RecordOf(conv, line).Some? then [RecordOf(conv, line).value] else []
  {
    hide RecordOf;
    assert [line][..0] == [];
  }

  /** What a text of this form is parsed to: nothing when its checksum is wrong or no line of its data is
      a record, else its model, its device and those records. */
  lemma ParsedAsFramed<V>(conv: string -> V, t: string, f: Frame, z: char, tail: string)
    requires Framed(t, f, z, tail)
    ensures f.bang < |t| && t[f.bang] == '!'
    ensures var records := RecordsOf(conv, SplitLines(f.data));
      ParseText(conv, t)
        == if f.crc.Some? && Crc16(Encode(t[..f.bang + 1])) as int != HexValue(f.crc.value) then Rejected
           else if records == [] then Rejected
           else Telegram(model := conv(f.model), device := conv(f.device), data := records, crc := f.crc)
  {
    hide MatchFrame, RecordsOf, SplitLines, Crc16, Encode, HexValue, FourHex;
    FramedIsMatched(t, f, z, tail);
  }

  /** And any other text is refused. */
  lemma UnframedIsRejected<V>(conv: string -> V, t: string)
    requires forall f, z, tail :: !Framed(t, f, z, tail)
    ensures ParseText(conv, t) == Rejected
  {
    hide MatchFrame, RecordsOf, SplitLines, Crc16, Encode, HexValue, Framed;
    if MatchFrame(t).Some? {
      var z, tail := MatchedIsFramed(t, MatchFrame(t).value);
    }
  }
}
