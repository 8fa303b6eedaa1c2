/** The LoRa end node of devices/lora.py: which declared fields it accepts, how one uplink updates
    its reading, and the proof that the reading is exactly the history of the accepted uplinks. */
module Lora {
  import opened Options
  import opened ByteCodec

  /** A JSON document; a float is kept as its bit pattern. */
  datatype Json =
    | Null | Bool(b: bool) | Int(n: int) | Float(bits: nat) | Str(s: string)
    | Arr(items: seq<Json>) | Obj(members: map<string, Json>)
  {
    /** What `not value` is true of. */
    predicate Falsy() {
      match this
      case Null => true
      case Bool(b) => !b
      case Int(n) => n == 0
      case Float(bits) => bits == 0 || bits == Pow2(63)
      case Str(s) => s == ""
      case Arr(items) => items == []
      case Obj(members) => members == map[]
    }
  }

  /** One step of a path: a key, an index (negative from the end), or any element. */
  datatype Segment = Key(key: string) | Index(index: int) | Any

  /** `_walk`: null stands for nothing there. */
  function Walk(node: Json, path: seq<Segment>): Json
    decreases |path|, 0
  {
    if path == [] then node
    else match path[0]
      case Any => if node.Arr? then FirstFound(node.items, path[1..]) else Null
      case Index(i) =>
        if node.Arr? && -|node.items| <= i < |node.items|
        then Walk(node.items[if i < 0 then i + |node.items| else i], path[1..]) else Null
      case Key(key) =>
        if node.Obj? && key in node.members then Walk(node.members[key], path[1..]) else Null
  }

  function FirstFound(items: seq<Json>, path: seq<Segment>): Json
    decreases |path|, 1 + |items|
  {
    if items == [] then Null
    else
      var found := Walk(items[0], path);
      if found != Null then found else FirstFound(items[1..], path)
  }

  /** Any-element picks the first element that yields a value, and fails only when none does. */
  lemma {:induction false} AnyFindsTheFirst(items: seq<Json>, path: seq<Segment>)
    ensures FirstFound(items, path) == Null <==> forall j :: 0 <= j < |items| ==> Walk(items[j], path) == Null
    ensures FirstFound(items, path) != Null ==>
              exists i :: 0 <= i < |items| && FirstFound(items, path) == Walk(items[i], path)
                          && forall j :: 0 <= j < i ==> Walk(items[j], path) == Null
  {
    if items != [] {
      var rest := items[1..];
      AnyFindsTheFirst(rest, path);
      assert forall j :: 0 < j < |items| ==> items[j] == rest[j - 1];
      assert forall j :: 0 <= j < |rest| ==> rest[j] == items[j + 1];
      if Walk(items[0], path) == Null && FirstFound(rest, path) != Null {
        var i :| 0 <= i < |rest| && FirstFound(rest, path) == Walk(rest[i], path)
                 && forall j :: 0 <= j < i ==> Walk(rest[j], path) == Null;
        assert FirstFound(items, path) == Walk(items[i + 1], path);
      }
    }
  }

  // ----- declared fields -----

  datatype Kind = Integer(width: nat, signed: bool) | Flag | Real(width: nat) | Text | Raw

  function Width(kind: Kind): nat {
    match kind
    case Integer(width, _) => width
    case Flag => 1
    case Real(width) => width
    case Text => 0
    case Raw => 0
  }

  predicate Signed(kind: Kind) {
    match kind
    case Integer(_, signed) => signed
    case _ => false
  }

  /** A multiplier and an offset other than 1 and 0, as bit patterns. */
  datatype Scale = Scale(factor: nat, bias: nat)

  datatype FieldSpec = FieldSpec(
    name: string, offset: Option<int>, source: Option<seq<Segment>>, kind: Kind, length: int, order: Order,
    bit: Option<int>, fPort: Option<int>, scale: Option<Scale>, unit: Option<string>, energy: bool)
  {
    /** What the constructor lets through: a path, or a place in the payload. */
    predicate WellFormed() {
      source.None? ==> offset.Some? && 0 < length
    }
  }

  /** One entry of the configured field list; None where a value is missing or unreadable. */
  datatype Declared = Declared(
    name: Option<string>, offset: Option<int>, source: Option<seq<Segment>>, kind: Option<Kind>,
    length: Option<int>, order: Option<Order>, bit: Option<int>, fPort: Option<int>, scale: Option<Scale>,
    unit: Option<string>, role: Option<string>)

  /** The only role there is; any other is ignored. */
  const ROLE_ENERGY_IMPORT_KWH: string := "energy_import_kwh"

  function OrElse<T>(o: Option<T>, t: T): T {
    if o.Some? then o.value else t
  }

  /** The field an entry declares, if it is usable by itself. */
  function SpecOf(d: Declared, order: Order): (r: Option<FieldSpec>)
    ensures r.Some? ==> r.value.WellFormed() && d.name == Some(r.value.name)
  {
    if d.name.None? || d.name.value == "" then None
    else
      var kind := OrElse(d.kind, Integer(2, false));
      var offset := if d.source.Some? then None else d.offset;
      var length: int := OrElse(d.length, Width(kind));
      if d.source.None? && (offset.None? || length <= 0) then None
      else Some(FieldSpec(d.name.value, offset, d.source, kind, length, OrElse(d.order, order), d.bit, d.fPort,
                          if d.bit.Some? then None else d.scale, d.unit, d.role == Some(ROLE_ENERGY_IMPORT_KWH)))
  }

  ghost predicate Distinct(specs: seq<FieldSpec>) {
    forall i, j :: 0 <= i < j < |specs| ==> specs[i].name != specs[j].name
  }

  /** Entry `p` declares `spec`, and no usable entry before it has that name. */
  ghost predicate FirstOfItsName(declared: seq<Declared>, order: Order, p: nat, spec: FieldSpec)
    requires p < |declared|
  {
    && SpecOf(declared[p], order) == Some(spec)
    && forall q :: 0 <= q < p ==> SpecOf(declared[q], order).None? || declared[q].name != Some(spec.name)
  }

  ghost predicate DeclaredBy(declared: seq<Declared>, order: Order, n: nat, spec: FieldSpec)
    requires n <= |declared|
  {
    exists p :: 0 <= p < n && FirstOfItsName(declared, order, p, spec)
  }

  predicate Named(specs: seq<FieldSpec>, name: string) {
    exists i :: 0 <= i < |specs| && specs[i].name == name
  }

  /** The field map of the first `n` entries. */
  function FieldsOf(declared: seq<Declared>, order: Order, n: nat): seq<FieldSpec>
    requires n <= |declared|
  {
    if n == 0 then []
    else
      var specs, spec := FieldsOf(declared, order, n - 1), SpecOf(declared[n - 1], order);
      if spec.Some? && !Named(specs, spec.value.name) then specs + [spec.value] else specs
  }

  lemma NamedSnoc(specs: seq<FieldSpec>, spec: FieldSpec, name: string)
    ensures Named(specs + [spec], name) <==> Named(specs, name) || spec.name == name
  {
    var more := specs + [spec];
    if Named(specs, name) {
      var i :| 0 <= i < |specs| && specs[i].name == name;
      assert more[i].name == name;
    }
    assert more[|specs|] == spec;
  }

  lemma NamedOwn(specs: seq<FieldSpec>, i: nat)
    requires i < |specs|
    ensures Named(specs, specs[i].name)
  {
  }

  /** The field map has every usable name once, from its first usable entry: a malformed entry costs
      only itself, also when its name comes again. */
  lemma {:induction false} FirstUsableOfEachName(declared: seq<Declared>, order: Order, n: nat)
    requires n <= |declared|
    ensures var specs := FieldsOf(declared, order, n);
      && Distinct(specs)
      && (forall i :: 0 <= i < |specs| ==> specs[i].WellFormed() && DeclaredBy(declared, order, n, specs[i]))
      && (forall p :: 0 <= p < n && SpecOf(declared[p], order).Some? ==>
            Named(specs, SpecOf(declared[p], order).value.name))
  {
    hide SpecOf, Named;
    if n > 0 {
      FirstUsableOfEachName(declared, order, n - 1);
      var specs, more := FieldsOf(declared, order, n - 1), FieldsOf(declared, order, n);
      var spec := SpecOf(declared[n - 1], order);
      forall i | 0 <= i < |specs| ensures Named(specs, specs[i].name) {
        NamedOwn(specs, i);
      }
      forall i | 0 <= i < |more| ensures DeclaredBy(declared, order, n, more[i]) {
        if i < |specs| {
          var q :| 0 <= q < n - 1 && FirstOfItsName(declared, order, q, specs[i]);
        } else {
          assert FirstOfItsName(declared, order, n - 1, spec.value);
        }
      }
      forall p | 0 <= p < n && SpecOf(declared[p], order).Some?
        ensures Named(more, SpecOf(declared[p], order).value.name)
      {
        if more != specs { NamedSnoc(specs, spec.value, SpecOf(declared[p], order).value.name); }
      }
    }
  }

  /** The names whose values are the node's imported energy. */
  function EnergyNames(specs: seq<FieldSpec>): seq<string> {
    if specs == [] then []
    else
      EnergyNames(specs[..|specs| - 1])
      + if specs[|specs| - 1].energy then [specs[|specs| - 1].name] else []
  }

  /** `_build_specs`. */
  method BuildSpecs(declared: seq<Declared>, order: Order) returns (specs: seq<FieldSpec>, energy: seq<string>)
    ensures specs == FieldsOf(declared, order, |declared|) && energy == EnergyNames(specs)
  {
    hide SpecOf, Named;
    specs, energy := [], [];
    var seen: set<string> := {};
    assert forall name :: !Named([], name) by { NothingNamed(); }
    for p := 0 to |declared|
      invariant specs == FieldsOf(declared, order, p) && energy == EnergyNames(specs)
      invariant forall name :: name in seen <==> Named(specs, name)
    {
      var spec := SpecOf(declared[p], order);
      if spec.Some? && spec.value.name !in seen {
        forall name ensures Named(specs + [spec.value], name) <==> Named(specs, name) || spec.value.name == name {
          NamedSnoc(specs, spec.value, name);
        }
        assert (specs + [spec.value])[..|specs|] == specs;
        specs := specs + [spec.value];
        if spec.value.energy {
          energy := energy + [spec.value.name];
        }
        seen := seen + {spec.value.name};
      }
    }
  }

  lemma NothingNamed()
    ensures forall name :: !Named([], name)
  {
  }

  // ----- one field -----

  /** The standard library's conversions, whose details do not matter here. */
  datatype Library = Library(
    text: seq<byte> -> string,
    float: (seq<byte>, Order) -> nat,
    fitsFloat: int -> bool,
    asInt: Json -> Parsed,
    base64: Json -> Option<seq<byte>>,
    eui: Json -> string)

  /** `int(value)` as the device calls it: a number, nothing, or an exception it does not catch. */
  datatype Parsed = Number(n: int) | NotANumber | Overflows

  datatype Value = Plain(json: Json) | Scaled(number: Json, scale: Scale)

  datatype Decoded = Got(value: Value) | Nothing | Raises

  function BytesToJson(chunk: seq<byte>): Json {
    Arr(seq(|chunk|, i requires 0 <= i < |chunk| => Int(chunk[i])))
  }

  function DecodeBytes(lib: Library, spec: FieldSpec, raw: seq<byte>): Option<Json>
    requires spec.offset.Some? && 0 < spec.length
  {
    var end := spec.offset.value + spec.length;
    if spec.offset.value < 0 || end > |raw| then None
    else
      var chunk := raw[spec.offset.value..end];
      match spec.kind
      case Raw => Some(BytesToJson(chunk))
      case Text => Some(Str(lib.text(chunk)))
      case Real(width) => if |chunk| == width then Some(Float(lib.float(chunk, spec.order))) else None
      case _ =>
        var number := FromBytes(chunk, spec.order, Signed(spec.kind));
        if spec.bit.Some? then
          if spec.bit.value < 0 then None else Some(Bool(Bit(number, spec.bit.value)))
        else if spec.kind.Flag? then Some(Bool(number != 0))
        else Some(Int(number))
  }

  function ApplyScale(lib: Library, spec: FieldSpec, json: Json): Decoded {
    if (!json.Int? && !json.Float?) || spec.scale.None? then Got(Plain(json))
    else if json.Int? && !lib.fitsFloat(json.n) then Raises
    else Got(Scaled(json, spec.scale.value))
  }

  function DecodeField(lib: Library, spec: FieldSpec, raw: seq<byte>, decoded: Json): Decoded
    requires spec.WellFormed()
  {
    if spec.source.Some? then
      var found := Walk(decoded, spec.source.value);
      if found == Null then Nothing else ApplyScale(lib, spec, found)
    else
      match DecodeBytes(lib, spec, raw)
      case None => Nothing
      case Some(json) => ApplyScale(lib, spec, json)
  }

  /** Where a field is. */
  predicate Reaches(spec: FieldSpec, raw: seq<byte>) {
    spec.offset.Some? && 0 <= spec.offset.value && 0 < spec.length && spec.offset.value + spec.length <= |raw|
  }

  function Chunk(spec: FieldSpec, raw: seq<byte>): seq<byte>
    requires Reaches(spec, raw)
  {
    raw[spec.offset.value..spec.offset.value + spec.length]
  }

  /** What a node writes at an integer field's place is what the device reads there, scaled as
      declared, over the whole range of the field's length, byte order and sign. */
  lemma NumberRoundTrip(lib: Library, spec: FieldSpec, raw: seq<byte>, decoded: Json, v: int)
    requires spec.source.None? && spec.WellFormed() && spec.kind.Integer? && spec.bit.None?
    requires Representable(v, spec.length, spec.kind.signed) && Reaches(spec, raw)
    requires Chunk(spec, raw) == ToBytes(v, spec.length, spec.order)
    ensures DecodeField(lib, spec, raw, decoded) == ApplyScale(lib, spec, Int(v))
    ensures spec.scale.None? ==> DecodeField(lib, spec, raw, decoded) == Got(Plain(Int(v)))
  {
    DecodeOfEncode(v, spec.length, spec.order, spec.kind.signed);
  }

  /** A boolean field without a bit is whether any of its bytes is set. */
  lemma BooleanIsAnyByte(lib: Library, spec: FieldSpec, raw: seq<byte>, decoded: Json)
    requires spec.source.None? && spec.WellFormed() && spec.kind.Flag? && spec.bit.None? && Reaches(spec, raw)
    ensures DecodeField(lib, spec, raw, decoded) ==
            Got(Plain(Bool(exists i :: 0 <= i < spec.length && Chunk(spec, raw)[i] != 0)))
  {
    ZeroExactlyWhen(Chunk(spec, raw), spec.order);
  }

  /** A field that is not wholly inside the payload is nothing, whatever its type. */
  lemma OutsideIsNothing(lib: Library, spec: FieldSpec, raw: seq<byte>, decoded: Json)
    requires spec.source.None? && spec.WellFormed() && !Reaches(spec, raw)
    ensures DecodeField(lib, spec, raw, decoded) == Nothing
  {
  }

  /** A flag field reads one physical bit of its bytes, whatever the field's sign. */
  lemma FlagIsPhysicalBit(lib: Library, spec: FieldSpec, raw: seq<byte>, decoded: Json)
    requires spec.source.None? && spec.WellFormed() && (spec.kind.Integer? || spec.kind.Flag?)
    requires Reaches(spec, raw) && spec.bit.Some? && 0 <= spec.bit.value < 8 * spec.length
    ensures DecodeField(lib, spec, raw, decoded) ==
            Got(Plain(Bool(Bit(Holder(Chunk(spec, raw), spec.order, spec.bit.value), spec.bit.value % 8))))
  {
    BitIsPhysical(Chunk(spec, raw), spec.order, Signed(spec.kind), spec.bit.value);
  }

  /** Nothing outside a field's own bytes has any influence on it. */
  lemma ReadsOnlyItsBytes(lib: Library, spec: FieldSpec, a: seq<byte>, b: seq<byte>, decoded: Json)
    requires spec.source.None? && spec.WellFormed() && Reaches(spec, a) && Reaches(spec, b)
    requires forall i :: spec.offset.value <= i < spec.offset.value + spec.length ==> a[i] == b[i]
    ensures DecodeField(lib, spec, a, decoded) == DecodeField(lib, spec, b, decoded)
  {
    assert Chunk(spec, a) == Chunk(spec, b);
  }

  // ----- one uplink -----

  /** Where a network server's JSON holds each thing. */
  datatype Envelope = Envelope(
    payload: Option<seq<Segment>>, decoded: Option<seq<Segment>>, fPort: Option<seq<Segment>>,
    fCnt: Option<seq<Segment>>, devEui: Option<seq<Segment>>, deviceId: Option<seq<Segment>>,
    rssi: Option<seq<Segment>>, snr: Option<seq<Segment>>)

  function Resolve(document: Json, path: Option<seq<Segment>>): Json {
    if path.None? then Null else Walk(document, path.value)
  }

  datatype Setup = Setup(specs: seq<FieldSpec>, envelope: Envelope, devEui: Option<string>, maxBytes: int,
                         lib: Library)
  {
    ghost predicate Valid() {
      Distinct(specs) && forall i :: 0 <= i < |specs| ==> specs[i].WellFormed()
    }
  }

  /** The header kept with a reading. */
  datatype Header = Header(devEui: Json, deviceId: Json, fPort: Option<int>, fCnt: Option<int>, rssi: Json, snr: Json,
                           payload: seq<byte>)

  datatype Entry = Entry(value: Value, fPort: Option<int>, fCnt: Option<int>, unit: Option<string>)

  datatype Reading = Reading(header: Header, fields: map<string, Entry>)

  /** An uplink before any field is decoded. */
  datatype Uplink = Refused | Broken | Uplink(header: Header, decoded: Json)

  function ToOption(p: Parsed): Option<int> {
    if p.Number? then Some(p.n) else None
  }

  /** Everything that refuses an uplink by itself: not a JSON object, another node's identity, an
      undecodable or oversized payload, nothing in it. */
  function Examine(setup: Setup, document: Option<Json>): Uplink {
    if document.None? || !document.value.Obj? then Refused
    else
      var doc, env, lib := document.value, setup.envelope, setup.lib;
      var eui := Resolve(doc, env.devEui);
      if setup.devEui.Some? && eui != Null && lib.eui(eui) != setup.devEui.value then Refused
      else
        var port, count := lib.asInt(Resolve(doc, env.fPort)), lib.asInt(Resolve(doc, env.fCnt));
        if port.Overflows? || count.Overflows? then Broken
        else
          var decoded, encoded := Resolve(doc, env.decoded), Resolve(doc, env.payload);
          var raw := if encoded == Null || encoded == Str("") then Some([]) else lib.base64(encoded);
          if raw.None? || |raw.value| > setup.maxBytes then Refused
          else if raw.value == [] && decoded.Falsy() then Refused
          else Uplink(Header(eui, Resolve(doc, env.deviceId), ToOption(port), ToOption(count),
                             Resolve(doc, env.rssi), Resolve(doc, env.snr), raw.value), decoded)
  }

  /** The payload bytes of an uplink: none when its place is empty, else its base64. */
  function PayloadOf(setup: Setup, doc: Json): Option<seq<byte>> {
    var encoded := Resolve(doc, setup.envelope.payload);
    if encoded in {Null, Str("")} then Some([]) else setup.lib.base64(encoded)
  }

  /** An object that names no other node. */
  predicate Ours(setup: Setup, document: Option<Json>) {
    && document.Some? && document.value.Obj?
    && (setup.devEui.None? || Resolve(document.value, setup.envelope.devEui) == Null
        || setup.lib.eui(Resolve(document.value, setup.envelope.devEui)) == setup.devEui.value)
  }

  /** Neither the port nor the frame counter is too large to be converted. */
  predicate Countable(setup: Setup, doc: Json) {
    && !setup.lib.asInt(Resolve(doc, setup.envelope.fPort)).Overflows?
    && !setup.lib.asInt(Resolve(doc, setup.envelope.fCnt)).Overflows?
  }

  /** A payload that can be decoded, is not too long, and is not empty beside an empty decoded part. */
  predicate HasContent(setup: Setup, doc: Json) {
    var raw := PayloadOf(setup, doc);
    raw.Some? && |raw.value| <= setup.maxBytes && (raw.value != [] || !Resolve(doc, setup.envelope.decoded).Falsy())
  }

  /** The header kept with a reading: each part from its own place in the document. */
  function HeaderOf(setup: Setup, doc: Json): Header
    requires PayloadOf(setup, doc).Some?
  {
    var env, lib := setup.envelope, setup.lib;
    Header(devEui := Resolve(doc, env.devEui), deviceId := Resolve(doc, env.deviceId),
           fPort := ToOption(lib.asInt(Resolve(doc, env.fPort))),
           fCnt := ToOption(lib.asInt(Resolve(doc, env.fCnt))),
           rssi := Resolve(doc, env.rssi), snr := Resolve(doc, env.snr), payload := PayloadOf(setup, doc).value)
  }

  /** Which uplinks pass, and what is read out of them, from the document and the setup alone. */
  lemma PassesExactlyWhen(setup: Setup, document: Option<Json>)
    ensures Examine(setup, document).Uplink? <==>
            Ours(setup, document) && Countable(setup, document.value) && HasContent(setup, document.value)
    ensures Examine(setup, document).Broken? <==> Ours(setup, document) && !Countable(setup, document.value)
    ensures Examine(setup, document).Uplink? ==>
              Examine(setup, document)
              == Uplink(HeaderOf(setup, document.value), Resolve(document.value, setup.envelope.decoded))
  {
    hide Walk;
    if document.Some? {
      var encoded := Resolve(document.value, setup.envelope.payload);
      assert encoded in {Null, Str("")} <==> encoded == Null || encoded == Str("");
    }
  }

  /** Port multiplexing: a field without a port is in every uplink. */
  predicate Eligible(spec: FieldSpec, u: Uplink)
    requires u.Uplink?
  {
    spec.fPort.None? || spec.fPort == u.header.fPort
  }

  function FieldIn(setup: Setup, spec: FieldSpec, u: Uplink): Decoded
    requires u.Uplink? && spec.WellFormed()
  {
    DecodeField(setup.lib, spec, u.header.payload, u.decoded)
  }

  /** The entry an uplink gives a field. */
  function EntryIn(setup: Setup, spec: FieldSpec, u: Uplink): Option<Entry>
    requires u.Uplink? && spec.WellFormed()
  {
    var decoded := FieldIn(setup, spec, u);
    if decoded.Got?
    then Some(Entry(decoded.value, u.header.fPort, u.header.fCnt,
                    if spec.unit == Some("") then None else spec.unit))
    else None
  }

  /** Some eligible field among the first `n` raises; some decodes. */
  ghost predicate SomeRaises(setup: Setup, u: Uplink, n: nat)
    requires setup.Valid() && u.Uplink? && n <= |setup.specs|
  {
    exists i :: 0 <= i < n && Eligible(setup.specs[i], u) && FieldIn(setup, setup.specs[i], u).Raises?
  }

  ghost predicate SomeFresh(setup: Setup, u: Uplink, n: nat)
    requires setup.Valid() && u.Uplink? && n <= |setup.specs|
  {
    exists i :: 0 <= i < n && Eligible(setup.specs[i], u) && FieldIn(setup, setup.specs[i], u).Got?
  }

  /** An uplink becomes a reading exactly when it passes every check, some eligible field decodes
      and none raises. What the device holds does not matter. */
  ghost predicate Accepted(setup: Setup, document: Option<Json>)
    requires setup.Valid()
  {
    var u := Examine(setup, document);
    u.Uplink? && !SomeRaises(setup, u, |setup.specs|) && SomeFresh(setup, u, |setup.specs|)
  }

  function Get(fields: map<string, Entry>, name: string): Option<Entry> {
    if name in fields then Some(fields[name]) else None
  }

  function Lookup(data: Option<Reading>, name: string): Option<Entry> {
    if data.Some? then Get(data.value.fields, name) else None
  }

  /** A field after an accepted uplink: replaced, or dropped, when it is eligible; carried when not. */
  function FieldAfter(setup: Setup, before: Option<Reading>, u: Uplink, spec: FieldSpec): Option<Entry>
    requires u.Uplink? && spec.WellFormed()
  {
    if Eligible(spec, u) then EntryIn(setup, spec, u) else Lookup(before, spec.name)
  }

  /** `fields` is right about the first `n` declared fields and holds nothing else. */
  ghost predicate Right(setup: Setup, before: Option<Reading>, u: Uplink, n: nat, fields: map<string, Entry>)
    requires setup.Valid() && u.Uplink? && n <= |setup.specs|
  {
    && (forall i :: 0 <= i < n ==>
          Get(fields, setup.specs[i].name) == FieldAfter(setup, before, u, setup.specs[i]))
    && (forall name :: name in fields ==> exists i :: 0 <= i < n && setup.specs[i].name == name)
  }

  ghost predicate Merged(setup: Setup, before: Option<Reading>, u: Uplink, after: Option<Reading>)
    requires setup.Valid() && u.Uplink?
  {
    && after.Some? && after.value.header == u.header
    && Right(setup, before, u, |setup.specs|, after.value.fields)
  }

  lemma RightStep(setup: Setup, before: Option<Reading>, u: Uplink, n: nat, fields: map<string, Entry>)
    requires setup.Valid() && u.Uplink? && n < |setup.specs| && Right(setup, before, u, n, fields)
    ensures var entry := FieldAfter(setup, before, u, setup.specs[n]);
            Right(setup, before, u, n + 1,
                  if entry.Some? then fields[setup.specs[n].name := entry.value] else fields)
  {
    hide FieldAfter;
    var spec := setup.specs[n];
    assert spec.name !in fields;
    var entry := FieldAfter(setup, before, u, spec);
    var more := if entry.Some? then fields[spec.name := entry.value] else fields;
    forall i | 0 <= i < n + 1 ensures Get(more, setup.specs[i].name) == FieldAfter(setup, before, u, setup.specs[i]) {
      if i < n { assert Get(more, setup.specs[i].name) == Get(fields, setup.specs[i].name); }
    }
    forall name | name in more ensures exists i :: 0 <= i < n + 1 && setup.specs[i].name == name {
      if name == spec.name { assert setup.specs[n].name == name; }
    }
  }

  lemma SeenStep(setup: Setup, u: Uplink, n: nat)
    requires setup.Valid() && u.Uplink? && n < |setup.specs|
    ensures var spec := setup.specs[n];
            && (SomeRaises(setup, u, n + 1) <==>
                SomeRaises(setup, u, n) || (Eligible(spec, u) && FieldIn(setup, spec, u).Raises?))
            && (SomeFresh(setup, u, n + 1) <==>
                SomeFresh(setup, u, n) || (Eligible(spec, u) && FieldIn(setup, spec, u).Got?))
  {
    hide DecodeField, Eligible, FieldIn;
  }

  lemma {:induction false} RaisesIsMonotone(setup: Setup, u: Uplink, n: nat)
    requires setup.Valid() && u.Uplink? && n <= |setup.specs|
    ensures SomeRaises(setup, u, n) ==> SomeRaises(setup, u, |setup.specs|)
  {
  }

  // ----- the same, from the document -----

  /** Field `i` is in the uplink: it has no port, or the uplink is on that port. */
  predicate IsIn(setup: Setup, doc: Json, i: nat)
    requires i < |setup.specs|
  {
    var fPort := setup.specs[i].fPort;
    fPort.Some? ==> setup.lib.asInt(Resolve(doc, setup.envelope.fPort)) == Number(fPort.value)
  }

  /** What field `i` decodes to. */
  ghost function ReadOf(setup: Setup, doc: Json, i: nat): Decoded
    requires setup.Valid() && i < |setup.specs| && PayloadOf(setup, doc).Some?
  {
    DecodeField(setup.lib, setup.specs[i], PayloadOf(setup, doc).value, Resolve(doc, setup.envelope.decoded))
  }

  /** Some field in the uplink decodes; some raises. */
  ghost predicate Reads(setup: Setup, doc: Json)
    requires setup.Valid() && PayloadOf(setup, doc).Some?
  {
    exists i :: 0 <= i < |setup.specs| && IsIn(setup, doc, i) && ReadOf(setup, doc, i).Got?
  }

  ghost predicate RaisesIn(setup: Setup, doc: Json)
    requires setup.Valid() && PayloadOf(setup, doc).Some?
  {
    exists i :: 0 <= i < |setup.specs| && IsIn(setup, doc, i) && ReadOf(setup, doc, i).Raises?
  }

  /** Field `i` after the uplink: what it decodes to, with the uplink's port and counter and the declared
      unit, or nothing; carried over if it is not in the uplink. */
  ghost function EntryAfter(setup: Setup, doc: Json, before: Option<Reading>, i: nat): Option<Entry>
    requires setup.Valid() && i < |setup.specs| && PayloadOf(setup, doc).Some?
  {
    var spec, read := setup.specs[i], ReadOf(setup, doc, i);
    if !IsIn(setup, doc, i) then Lookup(before, spec.name)
    else if read.Got? then
      Some(Entry(value := read.value, fPort := ToOption(setup.lib.asInt(Resolve(doc, setup.envelope.fPort))),
                 fCnt := ToOption(setup.lib.asInt(Resolve(doc, setup.envelope.fCnt))),
                 unit := if spec.unit == Some("") then None else spec.unit))
    else None
  }

  lemma InDocument(setup: Setup, document: Option<Json>, i: nat)
    requires setup.Valid() && i < |setup.specs| && Examine(setup, document).Uplink?
    ensures var u := Examine(setup, document);
      && PayloadOf(setup, document.value).Some?
      && (Eligible(setup.specs[i], u) <==> IsIn(setup, document.value, i))
      && FieldIn(setup, setup.specs[i], u) == ReadOf(setup, document.value, i)
      && forall before ::
           FieldAfter(setup, before, u, setup.specs[i]) == EntryAfter(setup, document.value, before, i)
  {
    hide Walk, DecodeField, Lookup, Examine;
    PassesExactlyWhen(setup, document);
  }

  /** Which uplinks become readings, from the document and the setup alone. */
  lemma AcceptedExactlyWhen(setup: Setup, document: Option<Json>)
    requires setup.Valid()
    ensures Accepted(setup, document) <==>
            && Ours(setup, document) && Countable(setup, document.value) && HasContent(setup, document.value)
            && Reads(setup, document.value) && !RaisesIn(setup, document.value)
    ensures Examine(setup, document).Uplink? ==>
              PayloadOf(setup, document.value).Some?
              && (SomeRaises(setup, Examine(setup, document), |setup.specs|) <==> RaisesIn(setup, document.value))
  {
    hide Walk, DecodeField, Examine, Eligible, FieldIn, IsIn, ReadOf;
    PassesExactlyWhen(setup, document);
    if Examine(setup, document).Uplink? {
      forall i | 0 <= i < |setup.specs|
        ensures Eligible(setup.specs[i], Examine(setup, document)) <==> IsIn(setup, document.value, i)
        ensures FieldIn(setup, setup.specs[i], Examine(setup, document)) == ReadOf(setup, document.value, i)
      {
        InDocument(setup, document, i);
      }
    }
  }

  lemma MergedFields(setup: Setup, document: Option<Json>, before: Option<Reading>, after: Option<Reading>)
    requires setup.Valid() && Accepted(setup, document) && Merged(setup, before, Examine(setup, document), after)
    ensures PayloadOf(setup, document.value).Some? && after.Some?
    ensures after.value.header == HeaderOf(setup, document.value)
    ensures forall i :: 0 <= i < |setup.specs| ==>
              Lookup(after, setup.specs[i].name) == EntryAfter(setup, document.value, before, i)
    ensures forall name :: name in after.value.fields ==> Named(setup.specs, name)
  {
    hide Walk, DecodeField, Examine, Eligible, FieldIn, IsIn, ReadOf, EntryAfter, FieldAfter;
    PassesExactlyWhen(setup, document);
    AcceptedExactlyWhen(setup, document);
    forall i | 0 <= i < |setup.specs|
      ensures Lookup(after, setup.specs[i].name) == EntryAfter(setup, document.value, before, i)
    {
      InDocument(setup, document, i);
    }
  }

  // ----- history -----

  ghost predicate Tells(setup: Setup, spec: FieldSpec, document: Option<Json>)
    requires setup.Valid()
  {
    Accepted(setup, document) && Eligible(spec, Examine(setup, document))
  }

  /** What a field's value should be: the entry from the last accepted uplink eligible for it. */
  ghost function Told(setup: Setup, spec: FieldSpec, received: seq<Option<Json>>): Option<Entry>
    requires setup.Valid() && spec.WellFormed()
  {
    if received == [] then None
    else
      var last := received[|received| - 1];
      if Tells(setup, spec, last) then EntryIn(setup, spec, Examine(setup, last))
      else Told(setup, spec, received[..|received| - 1])
  }

  /** The device holds its history: every declared field what it was last told, and nothing else. */
  ghost predicate HoldsHistory(setup: Setup, received: seq<Option<Json>>, data: Option<Reading>)
    requires setup.Valid()
  {
    && (forall i :: 0 <= i < |setup.specs| ==>
          Lookup(data, setup.specs[i].name) == Told(setup, setup.specs[i], received))
    && (data.Some? ==> forall name :: name in data.value.fields ==>
          exists i :: 0 <= i < |setup.specs| && setup.specs[i].name == name)
  }

  /** One uplink keeps it so. */
  lemma HistoryStep(setup: Setup, received: seq<Option<Json>>, document: Option<Json>, before: Option<Reading>,
                    after: Option<Reading>)
    requires setup.Valid() && HoldsHistory(setup, received, before)
    requires if Accepted(setup, document) then Merged(setup, before, Examine(setup, document), after)
             else after == before
    ensures HoldsHistory(setup, received + [document], after)
  {
    var longer := received + [document];
    assert longer[..|received|] == received;
    hide DecodeField, Examine, EntryIn, Accepted, Eligible;
    forall i | 0 <= i < |setup.specs|
      ensures Lookup(after, setup.specs[i].name) == Told(setup, setup.specs[i], longer)
    {
      assert setup.specs[i].WellFormed();
      assert Lookup(before, setup.specs[i].name) == Told(setup, setup.specs[i], received);
    }
  }

  ghost predicate IsLast(setup: Setup, spec: FieldSpec, received: seq<Option<Json>>, p: nat)
    requires setup.Valid() && p < |received|
  {
    && Tells(setup, spec, received[p])
    && forall q :: p < q < |received| ==> !Tells(setup, spec, received[q])
  }

  /** The history of a field, read as positions: it holds the entry of uplink `p` when that is the
      last accepted one eligible for it. */
  lemma {:induction false} ToldByTheLast(setup: Setup, spec: FieldSpec, received: seq<Option<Json>>, p: nat)
    requires setup.Valid() && spec.WellFormed() && p < |received| && IsLast(setup, spec, received, p)
    ensures Told(setup, spec, received) == EntryIn(setup, spec, Examine(setup, received[p]))
  {
    hide EntryIn, Accepted, Eligible, Examine;
    var n := |received| - 1;
    if p < n {
      assert !Tells(setup, spec, received[n]);
      assert forall q :: 0 <= q < n ==> received[..n][q] == received[q];
      ToldByTheLast(setup, spec, received[..n], p);
    }
  }

  /** And nothing when there is no such uplink. */
  lemma {:induction false} UntoldHoldsNothing(setup: Setup, spec: FieldSpec, received: seq<Option<Json>>)
    requires setup.Valid() && spec.WellFormed()
    requires forall q :: 0 <= q < |received| ==> !Tells(setup, spec, received[q])
    ensures Told(setup, spec, received) == None
  {
    hide EntryIn, Accepted, Eligible, Examine;
    if received != [] {
      var n := |received| - 1;
      assert !Tells(setup, spec, received[n]);
      assert forall q :: 0 <= q < n ==> received[..n][q] == received[q];
      UntoldHoldsNothing(setup, spec, received[..n]);
    }
  }

  /** `receive` returns true, returns false, or lets an exception out. */
  datatype Outcome = Taken | Declined | Raised

  class LoRa {
    const setup: Setup
    var data: Option<Reading>
    /** Every uplink so far. */
    ghost var received: seq<Option<Json>>

    constructor (setup: Setup)
      requires setup.Valid()
      ensures Valid() && this.setup == setup && data == None && received == []
    {
      this.setup, data, received := setup, None, [];
    }

    ghost predicate Valid()
      reads this
    {
      setup.Valid() && HoldsHistory(setup, received, data)
    }

    /** One uplink; `document` is what its text parses to. It is taken exactly when it passes every check,
        some field in it decodes and none raises; then the fields in it are replaced and the others are
        carried over. */
    method Receive(document: Option<Json>) returns (r: Outcome)
      requires Valid()
      modifies this
      ensures Valid() && received == old(received) + [document]
      ensures r.Taken? <==>
              && Ours(setup, document) && Countable(setup, document.value) && HasContent(setup, document.value)
              && Reads(setup, document.value) && !RaisesIn(setup, document.value)
      ensures r.Raised? <==>
              && Ours(setup, document)
              && (Countable(setup, document.value) ==>
                    HasContent(setup, document.value) && RaisesIn(setup, document.value))
      ensures r.Taken? ==>
                && data.Some? && data.value.header == HeaderOf(setup, document.value)
                && (forall i :: 0 <= i < |setup.specs| ==>
                      Lookup(data, setup.specs[i].name) == EntryAfter(setup, document.value, old(data), i))
                && forall name :: name in data.value.fields ==> Named(setup.specs, name)
      ensures !r.Taken? ==> data == old(data)
    {
      hide Ours, Countable, HasContent, Reads, RaisesIn, Examine, EntryAfter, HeaderOf, HoldsHistory,
           SomeRaises, SomeFresh, Right;
      PassesExactlyWhen(setup, document);
      AcceptedExactlyWhen(setup, document);
      var u := Examine(setup, document);
      r := Declined;
      var fields: map<string, Entry> := map[];
      if u.Uplink? {
        var news;
        r, fields, news := Decode(u);
        if r.Declined? && news {
          r := Taken;
        }
      } else if u.Broken? {
        r := Raised;
      }
      ghost var before := data;
      if r.Taken? {
        data := Some(Reading(u.header, fields));
      }
      HistoryStep(setup, received, document, before, data);
      received := received + [document];
      if r.Taken? {
        MergedFields(setup, document, before, data);
      }
    }

    /** The loop over the declared fields. */
    method Decode(u: Uplink) returns (r: Outcome, fields: map<string, Entry>, news: bool)
      requires setup.Valid() && u.Uplink?
      ensures !r.Taken? && (r.Raised? <==> SomeRaises(setup, u, |setup.specs|))
      ensures r.Declined? ==>
                && news == SomeFresh(setup, u, |setup.specs|)
                && Merged(setup, data, u, Some(Reading(u.header, fields)))
    {
      r, fields, news := Declined, map[], false;
      hide Right, Get, DecodeField, Eligible, SomeRaises, SomeFresh;
      AtTheStart(setup, data, u);
      for i := 0 to |setup.specs|
        invariant r.Declined? && Right(setup, data, u, i, fields)
        invariant !SomeRaises(setup, u, i) && news == SomeFresh(setup, u, i)
      {
        var spec := setup.specs[i];
        RightStep(setup, data, u, i, fields);
        SeenStep(setup, u, i);
        if !Eligible(spec, u) {
          var carried := Lookup(data, spec.name);
          if carried.Some? {
            fields := fields[spec.name := carried.value];
          }
        } else {
          var decoded := FieldIn(setup, spec, u);
          if decoded.Raises? {
            RaisesIsMonotone(setup, u, i + 1);
            r := Raised;
            return;
          }
          if decoded.Got? {
            news := true;
            fields := fields[spec.name := EntryIn(setup, spec, u).value];
          }
        }
      }
    }
  }

  lemma AtTheStart(setup: Setup, before: Option<Reading>, u: Uplink)
    requires setup.Valid() && u.Uplink?
    ensures Right(setup, before, u, 0, map[]) && !SomeRaises(setup, u, 0) && !SomeFresh(setup, u, 0)
  {
  }
}
