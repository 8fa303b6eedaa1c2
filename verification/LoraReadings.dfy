/** What the parts of a LoRa end node mean by themselves: a path into a document, a declared field, a
    decoded value, and what a reading holds in terms of the documents received. */
module LoraReadings {
  import opened Options
  import opened ByteCodec
  import opened Lora

  // ----- paths -----

  /** `child` is where one segment of a path leads from `node`. */
  ghost predicate LeadsTo(node: Json, segment: Segment, child: Json) {
    match segment
    case Key(key) => node.Obj? && key in node.members && node.members[key] == child
    case Index(index) =>
      node.Arr? && (if index >= 0 then index < |node.items| && node.items[index] == child
                    else -index <= |node.items| && node.items[|node.items| + index] == child)
    case Any => node.Arr? && child in node.items
  }

  /** `chain` goes through the document from `node`, a segment at a time. */
  ghost predicate Chain(node: Json, path: seq<Segment>, chain: seq<Json>) {
    && |chain| == |path| + 1 && chain[0] == node
    && forall i :: 0 <= i < |path| ==> LeadsTo(chain[i], path[i], chain[i + 1])
  }

  predicate Literal(path: seq<Segment>) {
    forall i :: 0 <= i < |path| ==> !path[i].Any?
  }

  lemma Longer(node: Json, path: seq<Segment>, child: Json, chain: seq<Json>)
    requires path != [] && LeadsTo(node, path[0], child) && Chain(child, path[1..], chain)
    ensures Chain(node, path, [node] + chain) && ([node] + chain)[|path|] == chain[|path| - 1]
  {
    hide LeadsTo;
    var longer := [node] + chain;
    forall i | 0 <= i < |path| ensures LeadsTo(longer[i], path[i], longer[i + 1]) {
      if i > 0 {
        assert LeadsTo(chain[i - 1], path[1..][i - 1], chain[i]);
      }
    }
  }

  /** What a path yields is at the end of a chain of its segments. */
  lemma {:induction false} WalkIsAChain(node: Json, path: seq<Segment>) returns (chain: seq<Json>)
    requires Walk(node, path) != Null
    ensures Chain(node, path, chain) && chain[|path|] == Walk(node, path)
    decreases |path|
  {
    if path == [] {
      chain := [node];
    } else {
      var child;
      match path[0] {
        case Any =>
          AnyFindsTheFirst(node.items, path[1..]);
          var i :| 0 <= i < |node.items| && FirstFound(node.items, path[1..]) == Walk(node.items[i], path[1..]);
          child := node.items[i];
        case Index(i) => child := node.items[if i < 0 then i + |node.items| else i];
        case Key(key) => child := node.members[key];
      }
      hide Walk;
      var rest := WalkIsAChain(child, path[1..]);
      Longer(node, path, child, rest);
      chain := [node] + rest;
    }
  }

  /** And a chain of a path without any-element segments is the only one: its end is what the path
      yields. */
  lemma {:induction false} ChainIsTheWalk(node: Json, path: seq<Segment>, chain: seq<Json>)
    requires Literal(path) && Chain(node, path, chain)
    ensures Walk(node, path) == chain[|path|]
    decreases |path|
  {
    if path != [] {
      assert LeadsTo(chain[0], path[0], chain[1]);
      assert forall i :: 0 <= i < |path| - 1 ==> LeadsTo(chain[1..][i], path[1..][i], chain[1..][i + 1]) by {
        hide LeadsTo;
        forall i | 0 <= i < |path| - 1 ensures LeadsTo(chain[1..][i], path[1..][i], chain[1..][i + 1]) {
          assert LeadsTo(chain[i + 1], path[i + 1], chain[i + 2]);
        }
      }
      ChainIsTheWalk(chain[1], path[1..], chain[1..]);
    }
  }

  // ----- declared fields -----

  /** The entry that declares a field in full. */
  function Declare(spec: FieldSpec): Declared {
    Declared(name := Some(spec.name), offset := spec.offset, source := spec.source, kind := Some(spec.kind),
             length := Some(spec.length), order := Some(spec.order), bit := spec.bit, fPort := spec.fPort,
             scale := spec.scale, unit := spec.unit,
             role := if spec.energy then Some(ROLE_ENERGY_IMPORT_KWH) else None)
  }

  /** Every field that can be declared is declared by such an entry, whatever the node's byte order. */
  lemma DeclaredInFull(spec: FieldSpec, order: Order)
    requires spec.WellFormed() && spec.name != "" && (spec.source.Some? ==> spec.offset.None?)
    requires spec.bit.Some? ==> spec.scale.None?
    ensures SpecOf(Declare(spec), order) == Some(spec)
  {
  }

  /** An entry is usable exactly when it has a name and either a path or a place of positive length.
      A path wins over an offset and a bit over a scale; an unknown role is none; what is left out is an
      unsigned number of two bytes in the node's byte order. */
  lemma WhatAnEntryDeclares(d: Declared, order: Order)
    ensures SpecOf(d, order).Some? <==>
            && d.name.Some? && d.name.value != ""
            && (d.source.Some?
                || (d.offset.Some? && if d.length.Some? then d.length.value > 0
                                      else d.kind.None? || Width(d.kind.value) > 0))
    ensures d.source.Some? ==> SpecOf(d, order) == SpecOf(d.(offset := None), order)
    ensures d.bit.Some? ==> SpecOf(d, order) == SpecOf(d.(scale := None), order)
    ensures d.role != Some(ROLE_ENERGY_IMPORT_KWH) ==> SpecOf(d, order) == SpecOf(d.(role := None), order)
    ensures d.kind.None? ==> SpecOf(d, order) == SpecOf(d.(kind := Some(Integer(2, false))), order)
    ensures d.length.None? && d.kind.Some? ==>
              SpecOf(d, order) == SpecOf(d.(length := Some(Width(d.kind.value))), order)
    ensures d.order.None? ==> SpecOf(d, order) == SpecOf(d.(order := Some(order)), order)
  {
  }

  /** The energy names are the names of the fields declared with that role. */
  lemma {:induction false} EnergyIsDeclared(specs: seq<FieldSpec>, name: string)
    ensures name in EnergyNames(specs) <==> exists i :: 0 <= i < |specs| && specs[i].energy && specs[i].name == name
  {
    if specs != [] {
      var n := |specs| - 1;
      EnergyIsDeclared(specs[..n], name);
      assert forall i :: 0 <= i < n ==> specs[..n][i] == specs[i];
      if specs[n].energy && specs[n].name == name {
        assert EnergyNames(specs)[|EnergyNames(specs[..n])|] == name;
      }
    }
  }

  // ----- values -----

  /** The fields that are no numbers, and those read from the part the network server has decoded. */
  lemma OtherFields(lib: Library, spec: FieldSpec, raw: seq<byte>, decoded: Json)
    requires spec.WellFormed()
    ensures spec.source.Some? ==>
              var found := Walk(decoded, spec.source.value);
              DecodeField(lib, spec, raw, decoded) == if found == Null then Nothing else ApplyScale(lib, spec, found)
    ensures spec.source.None? && spec.kind.Text? && Reaches(spec, raw) ==>
              DecodeField(lib, spec, raw, decoded) == Got(Plain(Str(lib.text(Chunk(spec, raw)))))
    ensures spec.source.None? && spec.kind.Real? && Reaches(spec, raw) ==>
              DecodeField(lib, spec, raw, decoded) ==
              if spec.length == spec.kind.width
              then ApplyScale(lib, spec, Float(lib.float(Chunk(spec, raw), spec.order))) else Nothing
    ensures spec.source.None? && (spec.kind.Integer? || spec.kind.Flag?) && spec.bit.Some? && spec.bit.value < 0 ==>
              DecodeField(lib, spec, raw, decoded) == Nothing
  {
  }

  /** Raw bytes are kept as their list. */
  lemma RawIsItsBytes(lib: Library, spec: FieldSpec, raw: seq<byte>, decoded: Json)
    requires spec.source.None? && spec.WellFormed() && spec.kind.Raw? && Reaches(spec, raw)
    ensures var r := DecodeField(lib, spec, raw, decoded);
      && r.Got? && r.value.Plain? && r.value.json.Arr? && |r.value.json.items| == spec.length
      && forall i :: 0 <= i < spec.length ==> r.value.json.items[i] == Int(raw[spec.offset.value + i] as int)
  {
    assert forall i :: 0 <= i < spec.length ==> Chunk(spec, raw)[i] == raw[spec.offset.value + i];
  }

  /** Only a number is scaled, and only where a scale is declared; one too large for a float raises. */
  lemma OnlyNumbersAreScaled(lib: Library, spec: FieldSpec, json: Json)
    ensures ApplyScale(lib, spec, json) == Raises <==> json.Int? && spec.scale.Some? && !lib.fitsFloat(json.n)
    ensures ApplyScale(lib, spec, json) == Got(Plain(json)) <==> spec.scale.None? || !(json.Int? || json.Float?)
    ensures forall scale :: ApplyScale(lib, spec, json) == Got(Scaled(json, scale)) <==>
              (spec.scale == Some(scale) && ((json.Int? && lib.fitsFloat(json.n)) || json.Float?))
    ensures ApplyScale(lib, spec, json) != Nothing
  {
  }

  // ----- history -----

  /** A declared field holds what the last uplink that became a reading and had the field in it gave it:
      both from the documents. */
  lemma HeldByTheLast(setup: Setup, received: seq<Option<Json>>, data: Option<Reading>, p: nat, i: nat)
    requires setup.Valid() && HoldsHistory(setup, received, data) && p < |received| && i < |setup.specs|
    requires IsLast(setup, setup.specs[i], received, p)
    ensures var document := received[p];
      && Ours(setup, document) && PayloadOf(setup, document.value).Some? && IsIn(setup, document.value, i)
      && Lookup(data, setup.specs[i].name) == EntryAfter(setup, document.value, None, i)
  {
    hide Examine, Eligible, IsIn, EntryAfter, Walk, DecodeField, FieldIn, EntryIn;
    var spec, u := setup.specs[i], Examine(setup, received[p]);
    assert Tells(setup, spec, received[p]);
    ToldByTheLast(setup, spec, received, p);
    AcceptedExactlyWhen(setup, received[p]);
    InDocument(setup, received[p], i);
    assert FieldAfter(setup, None, u, spec) == EntryIn(setup, spec, u);
  }
}
