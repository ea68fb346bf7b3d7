// Problem parameters of src/parameters.rs: the records filled from the
// input blocks and the command line, their parsers and the integrity check.
//
// Input blocks are string-to-string maps whose entries are visited in hash
// order; every contract here is independent of that order. Integer values
// are parsed exactly as Rust's `u64`/`usize` `from_str` does on a 64-bit
// target; floating-point parsing is a parameter `parseFloat` of the
// operations that need it.

module Parameters {
  import opened Wrappers

  /** Errors of the input blocks (src/utils/io_utils.rs). */
  datatype InputError =
    | BadInputFile
    | BadSimulationBlock
    | BadGeometryBlock
    | BadMaterialBlock
    | BadCrossSectionBlock
    | BadBlockType

  datatype ParameterError =
    | NoGeometry
    | UndefinedGeometry
    | MissingMaterial(material: string)
    | MissingCrossSection(reference: string)

  datatype BenchType = Standard | Coral1 | Coral2

  datatype Shape = Undefined | Brick | Sphere

  /** An input block: key to value. */
  type Block = map<string, string>

  /** A float parser (`str::parse::<f64>`): None when the text is rejected. */
  type FloatParser = string -> Option<real>

  // ---- integers ----

  /** One past the largest u64 / usize (64-bit target). */
  const UNSIGNED_LIMIT: nat := 0x1_0000_0000_0000_0000

  predicate IsDigit(c: char)
  {
    '0' <= c <= '9'
  }

  predicate AllDigits(s: string)
  {
    forall i :: 0 <= i < |s| ==> IsDigit(s[i])
  }

  /** The value of a string of decimal digits, most significant first. */
  function DigitsValue(s: string): nat
    requires AllDigits(s)
  {
    if s == [] then 0 else DigitsValue(s[..|s| - 1]) * 10 + (s[|s| - 1] - '0') as nat
  }

  /** `s.parse::<u64>()` (and usize): an optional '+', then at least one
      decimal digit and nothing else, with a value below 2^64. */
  function ParseUnsigned(s: string): (r: Option<nat>)
    ensures r.Some? ==> r.value < UNSIGNED_LIMIT
  {
    var digits := if |s| > 0 && s[0] == '+' then s[1..] else s;
    if |digits| == 0 || !AllDigits(digits) then None
    else if DigitsValue(digits) < UNSIGNED_LIMIT then Some(DigitsValue(digits))
    else None
  }

  /** The decimal text of a number, without leading zeros. */
  function Decimal(n: nat): (s: string)
  {
    if n < 10 then [('0' as int + n) as char]
    else Decimal(n / 10) + [('0' as int + n % 10) as char]
  }

  lemma {:induction false} DecimalDigits(n: nat)
    ensures |Decimal(n)| > 0 && AllDigits(Decimal(n)) && DigitsValue(Decimal(n)) == n
  {
    if n >= 10 {
      DecimalDigits(n / 10);
      var s := Decimal(n);
      assert s[..|s| - 1] == Decimal(n / 10);
    }
  }

  /** Every u64 is read back from its decimal text, with or without a '+'. */
  lemma DecimalRoundTrip(n: nat)
    requires n < UNSIGNED_LIMIT
    ensures ParseUnsigned(Decimal(n)) == Some(n)
    ensures ParseUnsigned("+" + Decimal(n)) == Some(n)
  {
    DecimalDigits(n);
    assert ("+" + Decimal(n))[1..] == Decimal(n);
  }

  /** Signs other than a leading '+', empty text and a lone '+' are rejected. */
  lemma ParseUnsignedRejects(s: string)
    ensures ParseUnsigned("") == None && ParseUnsigned("+") == None
    ensures |s| > 0 && s[0] == '-' ==> ParseUnsigned(s) == None
  {
    assert !IsDigit('-');
  }

  /** The value of an optional parse, or a fallback. */
  function Or<T>(o: Option<T>, fallback: T): T
  {
    if o.Some? then o.value else fallback
  }

  // ---- input blocks ----
  //
  // Each block parser starts from the record's defaults and applies the
  // entries one at a time; an entry whose key is unknown or whose value does
  // not parse rejects the whole block. The records below are described by
  // the entries they were built from: a field named by an entry takes its
  // parsed value, every other field keeps its default.

  /** A text field given the entries read. */
  function TextEntry<K>(entries: map<K, string>, k: K, fallback: string): string
  {
    if k in entries then entries[k] else fallback
  }

  /** A float field given the entries read. */
  function FloatEntry<K>(entries: map<K, string>, k: K, fallback: real, parseFloat: FloatParser): real
  {
    if k in entries then Or(parseFloat(entries[k]), fallback) else fallback
  }

  /** An unsigned integer field given the entries read. */
  function NatEntry<K>(entries: map<K, string>, k: K, fallback: nat): nat
  {
    if k in entries then Or(ParseUnsigned(entries[k]), fallback) else fallback
  }

  /** The shape names a geometry block accepts. */
  function ParseShape(v: string): Option<Shape>
  {
    if v == "brick" then Some(Brick) else if v == "sphere" then Some(Sphere) else None
  }

  /** The default nu bar: 2.4 rounded to single precision (`from_f32(2.4)`). */
  const NU_BAR_DEFAULT: real := 5033165.0 / 2097152.0

  /** A region of space made of one material: a sphere (radius, center) or a brick (bounds). */
  datatype GeometryParameters = GeometryParameters(
    materialName: string,
    shape: Shape,
    radius: real,
    xCenter: real,
    yCenter: real,
    zCenter: real,
    xMin: real,
    yMin: real,
    zMin: real,
    xMax: real,
    yMax: real,
    zMax: real)

  const DEFAULT_GEOMETRY: GeometryParameters :=
    GeometryParameters("", Undefined, 0.0, 0.0, 0.0, 0.0, 0.0, 0.0, 0.0, 0.0, 0.0, 0.0)

  /** The keys of a geometry block. */
  datatype GeometryKey =
    | GMaterial | GShape | GRadius | GXCenter | GYCenter | GZCenter | GXMin | GYMin | GZMin | GXMax | GYMax | GZMax

  /** The key a block entry names, if any. */
  function GeometryKeyOf(s: string): (r: Option<GeometryKey>)
    ensures r.Some? ==> s == GeometryKeyName(r.value)
  {
    if s == "material" then Some(GMaterial)
    else if s == "shape" then Some(GShape)
    else if s == "radius" then Some(GRadius)
    else if s == "xCenter" then Some(GXCenter)
    else if s == "yCenter" then Some(GYCenter)
    else if s == "zCenter" then Some(GZCenter)
    else if s == "xMin" then Some(GXMin)
    else if s == "yMin" then Some(GYMin)
    else if s == "zMin" then Some(GZMin)
    else if s == "xMax" then Some(GXMax)
    else if s == "yMax" then Some(GYMax)
    else if s == "zMax" then Some(GZMax)
    else None
  }

  /** The text of a key. */
  function GeometryKeyName(k: GeometryKey): string
  {
    match k
    case GMaterial => "material"
    case GShape => "shape"
    case GRadius => "radius"
    case GXCenter => "xCenter"
    case GYCenter => "yCenter"
    case GZCenter => "zCenter"
    case GXMin => "xMin"
    case GYMin => "yMin"
    case GZMin => "zMin"
    case GXMax => "xMax"
    case GYMax => "yMax"
    case GZMax => "zMax"
  }

  /** Key names and keys correspond one to one. */
  lemma GeometryKeyRoundTrip(k: GeometryKey)
    ensures GeometryKeyOf(GeometryKeyName(k)) == Some(k)
  {
  }

  const ALL_GEOMETRY_KEYS: seq<GeometryKey> :=
    [GMaterial, GShape, GRadius, GXCenter, GYCenter, GZCenter, GXMin, GYMin, GZMin, GXMax, GYMax, GZMax]

  lemma AllGeometryKeys(k: GeometryKey)
    ensures k in ALL_GEOMETRY_KEYS
  {
  }

  /** The value of a key can be read. */
  predicate GeometryValueOk(k: GeometryKey, val: string, parseFloat: FloatParser)
  {
    match k
    case GMaterial => true
    case GShape => ParseShape(val).Some?
    case GRadius => parseFloat(val).Some?
    case GXCenter => parseFloat(val).Some?
    case GYCenter => parseFloat(val).Some?
    case GZCenter => parseFloat(val).Some?
    case GXMin => parseFloat(val).Some?
    case GYMin => parseFloat(val).Some?
    case GZMin => parseFloat(val).Some?
    case GXMax => parseFloat(val).Some?
    case GYMax => parseFloat(val).Some?
    case GZMax => parseFloat(val).Some?
  }

  /** A block entry is accepted: a known key with a readable value. */
  predicate GeometryEntryOk(key: string, val: string, parseFloat: FloatParser)
  {
    GeometryKeyOf(key).Some? && GeometryValueOk(GeometryKeyOf(key).value, val, parseFloat)
  }

  /** One entry applied to a record; None when its value is unreadable. */
  function SetGeometryField(r: GeometryParameters, k: GeometryKey, val: string, parseFloat: FloatParser): Option<GeometryParameters>
  {
    match k
    case GMaterial => Some(r.(materialName := val))
    case GShape => var v := ParseShape(val); if v.None? then None else Some(r.(shape := v.value))
    case GRadius => var v := parseFloat(val); if v.None? then None else Some(r.(radius := v.value))
    case GXCenter => var v := parseFloat(val); if v.None? then None else Some(r.(xCenter := v.value))
    case GYCenter => var v := parseFloat(val); if v.None? then None else Some(r.(yCenter := v.value))
    case GZCenter => var v := parseFloat(val); if v.None? then None else Some(r.(zCenter := v.value))
    case GXMin => var v := parseFloat(val); if v.None? then None else Some(r.(xMin := v.value))
    case GYMin => var v := parseFloat(val); if v.None? then None else Some(r.(yMin := v.value))
    case GZMin => var v := parseFloat(val); if v.None? then None else Some(r.(zMin := v.value))
    case GXMax => var v := parseFloat(val); if v.None? then None else Some(r.(xMax := v.value))
    case GYMax => var v := parseFloat(val); if v.None? then None else Some(r.(yMax := v.value))
    case GZMax => var v := parseFloat(val); if v.None? then None else Some(r.(zMax := v.value))
  }

  /** Applying an entry fails exactly when its value cannot be read. */
  lemma SetGeometryFieldOk(r: GeometryParameters, k: GeometryKey, val: string, parseFloat: FloatParser)
    ensures SetGeometryField(r, k, val, parseFloat).Some? <==> GeometryValueOk(k, val, parseFloat)
  {
  }

  /** The entries of a block, by key. */
  function GeometryEntries(block: Block): map<GeometryKey, string>
  {
    map k | k in ALL_GEOMETRY_KEYS && GeometryKeyName(k) in block :: block[GeometryKeyName(k)]
  }

  /** The record built from some entries: each field named by one of them
      is read from its value, every other field keeps its default. */
  function GeometryFromEntries(entries: map<GeometryKey, string>, parseFloat: FloatParser): GeometryParameters
  {
    var d := DEFAULT_GEOMETRY;
    GeometryParameters(
      TextEntry(entries, GMaterial, d.materialName),
      if GShape in entries then Or(ParseShape(entries[GShape]), d.shape) else d.shape,
      FloatEntry(entries, GRadius, d.radius, parseFloat),
      FloatEntry(entries, GXCenter, d.xCenter, parseFloat),
      FloatEntry(entries, GYCenter, d.yCenter, parseFloat),
      FloatEntry(entries, GZCenter, d.zCenter, parseFloat),
      FloatEntry(entries, GXMin, d.xMin, parseFloat),
      FloatEntry(entries, GYMin, d.yMin, parseFloat),
      FloatEntry(entries, GZMin, d.zMin, parseFloat),
      FloatEntry(entries, GXMax, d.xMax, parseFloat),
      FloatEntry(entries, GYMax, d.yMax, parseFloat),
      FloatEntry(entries, GZMax, d.zMax, parseFloat))
  }

  /** Reading one more accepted entry sets exactly its field. */
  lemma GeometryStep(entries: map<GeometryKey, string>, k: GeometryKey, val: string, parseFloat: FloatParser)
    requires GeometryValueOk(k, val, parseFloat)
    ensures SetGeometryField(GeometryFromEntries(entries, parseFloat), k, val, parseFloat)
      == Some(GeometryFromEntries(entries[k := val], parseFloat))
  {
  }

  /** The keys read so far follow the entries read so far. */
  lemma GeometrySeenStep(block: Block, entries: map<GeometryKey, string>, seen: set<string>, key: string)
    requires key in block && GeometryKeyOf(key).Some?
    requires forall j :: j in entries <==> GeometryKeyName(j) in seen
    requires forall j :: j in entries ==> GeometryKeyName(j) in block && entries[j] == block[GeometryKeyName(j)]
    ensures forall j :: j in entries[GeometryKeyOf(key).value := block[key]] <==> GeometryKeyName(j) in seen + {key}
    ensures forall j :: j in entries[GeometryKeyOf(key).value := block[key]] ==>
      GeometryKeyName(j) in block && entries[GeometryKeyOf(key).value := block[key]][j] == block[GeometryKeyName(j)]
  {
    forall j
      ensures j in entries[GeometryKeyOf(key).value := block[key]] <==> GeometryKeyName(j) in seen + {key}
    {
      GeometryKeyRoundTrip(j);
    }
  }

  /** GeometryParameters::from_block: the block is accepted iff every entry is
      (an unknown key, a shape other than brick/sphere or an unreadable number
      rejects it, whatever the order of the entries), and then each field
      comes from its entry or keeps its default. */
  method GeometryFromBlock(block: Block, parseFloat: FloatParser) returns (r: Result<GeometryParameters, InputError>)
    ensures r.Ok? <==> forall k :: k in block ==> GeometryEntryOk(k, block[k], parseFloat)
    ensures r.Err? ==> r.error == BadGeometryBlock
    ensures r.Ok? ==> r.value == GeometryFromEntries(GeometryEntries(block), parseFloat)
  {
    var params := DEFAULT_GEOMETRY;
    var todo := block.Keys;
    ghost var entries: map<GeometryKey, string> := map[];
    while todo != {}
      invariant todo <= block.Keys
      invariant forall k :: k in block.Keys - todo ==> GeometryEntryOk(k, block[k], parseFloat)
      invariant forall k :: k in entries <==> GeometryKeyName(k) in block.Keys - todo
      invariant forall k :: k in entries ==> GeometryKeyName(k) in block && entries[k] == block[GeometryKeyName(k)]
      invariant params == GeometryFromEntries(entries, parseFloat)
      decreases todo
    {
      var key :| key in todo;
      var k := GeometryKeyOf(key);
      if k.None? {
        return Err(BadGeometryBlock);
      }
      var next := SetGeometryField(params, k.value, block[key], parseFloat);
      SetGeometryFieldOk(params, k.value, block[key], parseFloat);
      if next.None? {
        return Err(BadGeometryBlock);
      }
      GeometryStep(entries, k.value, block[key], parseFloat);
      params := next.value;
      GeometrySeenStep(block, entries, block.Keys - todo, key);
      assert block.Keys - (todo - {key}) == (block.Keys - todo) + {key};
      entries := entries[k.value := block[key]];
      todo := todo - {key};
    }
    forall k | true
      ensures k in entries <==> k in GeometryEntries(block)
    {
      AllGeometryKeys(k);
    }
    assert entries == GeometryEntries(block);
    return Ok(params);
  }

  /** A material: its name, mass, isotope and reaction counts and the names and weights of its three reaction cross sections. */
  datatype MaterialParameters = MaterialParameters(
    name: string,
    mass: real,
    totalCrossSection: real,
    nIsotopes: nat,
    nReactions: nat,
    sourceRate: real,
    scatteringCrossSection: string,
    absorptionCrossSection: string,
    fissionCrossSection: string,
    scatteringCrossSectionRatio: real,
    absorbtionCrossSectionRatio: real,
    fissionCrossSectionRatio: real)

  const DEFAULT_MATERIAL: MaterialParameters :=
    MaterialParameters("", 1000.0, 1.0, 10, 9, 0.0, "", "", "", 1.0, 1.0, 1.0)

  /** The keys of a material block. */
  datatype MaterialKey =
    | MName | MMass | MTotalCrossSection | MNIsotopes | MNReactions | MSourceRate | MScatteringCrossSection | MAbsorptionCrossSection | MFissionCrossSection | MScatteringCrossSectionRatio | MAbsorptionCrossSectionRatio | MFissionCrossSectionRatio

  /** The key a block entry names, if any. */
  function MaterialKeyOf(s: string): (r: Option<MaterialKey>)
    ensures r.Some? ==> s == MaterialKeyName(r.value)
  {
    if s == "name" then Some(MName)
    else if s == "mass" then Some(MMass)
    else if s == "totalCrossSection" then Some(MTotalCrossSection)
    else if s == "nIsotopes" then Some(MNIsotopes)
    else if s == "nReactions" then Some(MNReactions)
    else if s == "sourceRate" then Some(MSourceRate)
    else if s == "scatteringCrossSection" then Some(MScatteringCrossSection)
    else if s == "absorptionCrossSection" then Some(MAbsorptionCrossSection)
    else if s == "fissionCrossSection" then Some(MFissionCrossSection)
    else if s == "scatteringCrossSectionRatio" then Some(MScatteringCrossSectionRatio)
    else if s == "absorptionCrossSectionRatio" then Some(MAbsorptionCrossSectionRatio)
    else if s == "fissionCrossSectionRatio" then Some(MFissionCrossSectionRatio)
    else None
  }

  /** The text of a key. */
  function MaterialKeyName(k: MaterialKey): string
  {
    match k
    case MName => "name"
    case MMass => "mass"
    case MTotalCrossSection => "totalCrossSection"
    case MNIsotopes => "nIsotopes"
    case MNReactions => "nReactions"
    case MSourceRate => "sourceRate"
    case MScatteringCrossSection => "scatteringCrossSection"
    case MAbsorptionCrossSection => "absorptionCrossSection"
    case MFissionCrossSection => "fissionCrossSection"
    case MScatteringCrossSectionRatio => "scatteringCrossSectionRatio"
    case MAbsorptionCrossSectionRatio => "absorptionCrossSectionRatio"
    case MFissionCrossSectionRatio => "fissionCrossSectionRatio"
  }

  /** Key names and keys correspond one to one. */
  lemma MaterialKeyRoundTrip(k: MaterialKey)
    ensures MaterialKeyOf(MaterialKeyName(k)) == Some(k)
  {
  }

  const ALL_MATERIAL_KEYS: seq<MaterialKey> :=
    [MName, MMass, MTotalCrossSection, MNIsotopes, MNReactions, MSourceRate, MScatteringCrossSection, MAbsorptionCrossSection, MFissionCrossSection, MScatteringCrossSectionRatio, MAbsorptionCrossSectionRatio, MFissionCrossSectionRatio]

  lemma AllMaterialKeys(k: MaterialKey)
    ensures k in ALL_MATERIAL_KEYS
  {
  }

  /** The value of a key can be read. */
  predicate MaterialValueOk(k: MaterialKey, val: string, parseFloat: FloatParser)
  {
    match k
    case MName => true
    case MMass => parseFloat(val).Some?
    case MTotalCrossSection => parseFloat(val).Some?
    case MNIsotopes => ParseUnsigned(val).Some?
    case MNReactions => ParseUnsigned(val).Some?
    case MSourceRate => parseFloat(val).Some?
    case MScatteringCrossSection => true
    case MAbsorptionCrossSection => true
    case MFissionCrossSection => true
    case MScatteringCrossSectionRatio => parseFloat(val).Some?
    case MAbsorptionCrossSectionRatio => parseFloat(val).Some?
    case MFissionCrossSectionRatio => parseFloat(val).Some?
  }

  /** A block entry is accepted: a known key with a readable value. */
  predicate MaterialEntryOk(key: string, val: string, parseFloat: FloatParser)
  {
    MaterialKeyOf(key).Some? && MaterialValueOk(MaterialKeyOf(key).value, val, parseFloat)
  }

  /** One entry applied to a record; None when its value is unreadable. */
  function SetMaterialField(r: MaterialParameters, k: MaterialKey, val: string, parseFloat: FloatParser): Option<MaterialParameters>
  {
    match k
    case MName => Some(r.(name := val))
    case MMass => var v := parseFloat(val); if v.None? then None else Some(r.(mass := v.value))
    case MTotalCrossSection => var v := parseFloat(val); if v.None? then None else Some(r.(totalCrossSection := v.value))
    case MNIsotopes => var v := ParseUnsigned(val); if v.None? then None else Some(r.(nIsotopes := v.value))
    case MNReactions => var v := ParseUnsigned(val); if v.None? then None else Some(r.(nReactions := v.value))
    case MSourceRate => var v := parseFloat(val); if v.None? then None else Some(r.(sourceRate := v.value))
    case MScatteringCrossSection => Some(r.(scatteringCrossSection := val))
    case MAbsorptionCrossSection => Some(r.(absorptionCrossSection := val))
    case MFissionCrossSection => Some(r.(fissionCrossSection := val))
    case MScatteringCrossSectionRatio => var v := parseFloat(val); if v.None? then None else Some(r.(scatteringCrossSectionRatio := v.value))
    case MAbsorptionCrossSectionRatio => var v := parseFloat(val); if v.None? then None else Some(r.(absorbtionCrossSectionRatio := v.value))
    case MFissionCrossSectionRatio => var v := parseFloat(val); if v.None? then None else Some(r.(fissionCrossSectionRatio := v.value))
  }

  /** Applying an entry fails exactly when its value cannot be read. */
  lemma SetMaterialFieldOk(r: MaterialParameters, k: MaterialKey, val: string, parseFloat: FloatParser)
    ensures SetMaterialField(r, k, val, parseFloat).Some? <==> MaterialValueOk(k, val, parseFloat)
  {
  }

  /** The entries of a block, by key. */
  function MaterialEntries(block: Block): map<MaterialKey, string>
  {
    map k | k in ALL_MATERIAL_KEYS && MaterialKeyName(k) in block :: block[MaterialKeyName(k)]
  }

  /** The record built from some entries: each field named by one of them
      is read from its value, every other field keeps its default. */
  function MaterialFromEntries(entries: map<MaterialKey, string>, parseFloat: FloatParser): MaterialParameters
  {
    var d := DEFAULT_MATERIAL;
    MaterialParameters(
      TextEntry(entries, MName, d.name),
      FloatEntry(entries, MMass, d.mass, parseFloat),
      FloatEntry(entries, MTotalCrossSection, d.totalCrossSection, parseFloat),
      NatEntry(entries, MNIsotopes, d.nIsotopes),
      NatEntry(entries, MNReactions, d.nReactions),
      FloatEntry(entries, MSourceRate, d.sourceRate, parseFloat),
      TextEntry(entries, MScatteringCrossSection, d.scatteringCrossSection),
      TextEntry(entries, MAbsorptionCrossSection, d.absorptionCrossSection),
      TextEntry(entries, MFissionCrossSection, d.fissionCrossSection),
      FloatEntry(entries, MScatteringCrossSectionRatio, d.scatteringCrossSectionRatio, parseFloat),
      FloatEntry(entries, MAbsorptionCrossSectionRatio, d.absorbtionCrossSectionRatio, parseFloat),
      FloatEntry(entries, MFissionCrossSectionRatio, d.fissionCrossSectionRatio, parseFloat))
  }

  /** Reading one more accepted entry sets exactly its field. */
  lemma MaterialStep(entries: map<MaterialKey, string>, k: MaterialKey, val: string, parseFloat: FloatParser)
    requires MaterialValueOk(k, val, parseFloat)
    ensures SetMaterialField(MaterialFromEntries(entries, parseFloat), k, val, parseFloat)
      == Some(MaterialFromEntries(entries[k := val], parseFloat))
  {
  }

  /** The keys read so far follow the entries read so far. */
  lemma MaterialSeenStep(block: Block, entries: map<MaterialKey, string>, seen: set<string>, key: string)
    requires key in block && MaterialKeyOf(key).Some?
    requires forall j :: j in entries <==> MaterialKeyName(j) in seen
    requires forall j :: j in entries ==> MaterialKeyName(j) in block && entries[j] == block[MaterialKeyName(j)]
    ensures forall j :: j in entries[MaterialKeyOf(key).value := block[key]] <==> MaterialKeyName(j) in seen + {key}
    ensures forall j :: j in entries[MaterialKeyOf(key).value := block[key]] ==>
      MaterialKeyName(j) in block && entries[MaterialKeyOf(key).value := block[key]][j] == block[MaterialKeyName(j)]
  {
    forall j
      ensures j in entries[MaterialKeyOf(key).value := block[key]] <==> MaterialKeyName(j) in seen + {key}
    {
      MaterialKeyRoundTrip(j);
    }
  }

  /** MaterialParameters::from_block: accepted iff every entry has a known key
      and a readable value (isotope and reaction counts as unsigned integers,
      cross-section names as any text); fields without an entry keep their
      defaults. */
  method MaterialFromBlock(block: Block, parseFloat: FloatParser) returns (r: Result<MaterialParameters, InputError>)
    ensures r.Ok? <==> forall k :: k in block ==> MaterialEntryOk(k, block[k], parseFloat)
    ensures r.Err? ==> r.error == BadMaterialBlock
    ensures r.Ok? ==> r.value == MaterialFromEntries(MaterialEntries(block), parseFloat)
  {
    var params := DEFAULT_MATERIAL;
    var todo := block.Keys;
    ghost var entries: map<MaterialKey, string> := map[];
    while todo != {}
      invariant todo <= block.Keys
      invariant forall k :: k in block.Keys - todo ==> MaterialEntryOk(k, block[k], parseFloat)
      invariant forall k :: k in entries <==> MaterialKeyName(k) in block.Keys - todo
      invariant forall k :: k in entries ==> MaterialKeyName(k) in block && entries[k] == block[MaterialKeyName(k)]
      invariant params == MaterialFromEntries(entries, parseFloat)
      decreases todo
    {
      var key :| key in todo;
      var k := MaterialKeyOf(key);
      if k.None? {
        return Err(BadMaterialBlock);
      }
      var next := SetMaterialField(params, k.value, block[key], parseFloat);
      SetMaterialFieldOk(params, k.value, block[key], parseFloat);
      if next.None? {
        return Err(BadMaterialBlock);
      }
      MaterialStep(entries, k.value, block[key], parseFloat);
      params := next.value;
      MaterialSeenStep(block, entries, block.Keys - todo, key);
      assert block.Keys - (todo - {key}) == (block.Keys - todo) + {key};
      entries := entries[k.value := block[key]];
      todo := todo - {key};
    }
    forall k | true
      ensures k in entries <==> k in MaterialEntries(block)
    {
      AllMaterialKeys(k);
    }
    assert entries == MaterialEntries(block);
    return Ok(params);
  }

  /** A cross section: the coefficients of a degree-4 polynomial and nu bar. */
  datatype CrossSectionParameters = CrossSectionParameters(
    name: string,
    aa: real,
    bb: real,
    cc: real,
    dd: real,
    ee: real,
    nuBar: real)

  const DEFAULT_CROSS_SECTION: CrossSectionParameters :=
    CrossSectionParameters("", 0.0, 0.0, 0.0, 0.0, 1.0, NU_BAR_DEFAULT)

  /** The keys of a cross-section block. */
  datatype CrossSectionKey =
    | XName | XA | XB | XC | XD | XE | XNuBar

  /** The key a block entry names, if any. */
  function CrossSectionKeyOf(s: string): (r: Option<CrossSectionKey>)
    ensures r.Some? ==> s == CrossSectionKeyName(r.value)
  {
    if s == "name" then Some(XName)
    else if s == "A" then Some(XA)
    else if s == "B" then Some(XB)
    else if s == "C" then Some(XC)
    else if s == "D" then Some(XD)
    else if s == "E" then Some(XE)
    else if s == "nuBar" then Some(XNuBar)
    else None
  }

  /** The text of a key. */
  function CrossSectionKeyName(k: CrossSectionKey): string
  {
    match k
    case XName => "name"
    case XA => "A"
    case XB => "B"
    case XC => "C"
    case XD => "D"
    case XE => "E"
    case XNuBar => "nuBar"
  }

  /** Key names and keys correspond one to one. */
  lemma CrossSectionKeyRoundTrip(k: CrossSectionKey)
    ensures CrossSectionKeyOf(CrossSectionKeyName(k)) == Some(k)
  {
  }

  const ALL_CROSSSECTION_KEYS: seq<CrossSectionKey> :=
    [XName, XA, XB, XC, XD, XE, XNuBar]

  lemma AllCrossSectionKeys(k: CrossSectionKey)
    ensures k in ALL_CROSSSECTION_KEYS
  {
  }

  /** The value of a key can be read. */
  predicate CrossSectionValueOk(k: CrossSectionKey, val: string, parseFloat: FloatParser)
  {
    match k
    case XName => true
    case XA => parseFloat(val).Some?
    case XB => parseFloat(val).Some?
    case XC => parseFloat(val).Some?
    case XD => parseFloat(val).Some?
    case XE => parseFloat(val).Some?
    case XNuBar => parseFloat(val).Some?
  }

  /** A block entry is accepted: a known key with a readable value. */
  predicate CrossSectionEntryOk(key: string, val: string, parseFloat: FloatParser)
  {
    CrossSectionKeyOf(key).Some? && CrossSectionValueOk(CrossSectionKeyOf(key).value, val, parseFloat)
  }

  /** One entry applied to a record; None when its value is unreadable. */
  function SetCrossSectionField(r: CrossSectionParameters, k: CrossSectionKey, val: string, parseFloat: FloatParser): Option<CrossSectionParameters>
  {
    match k
    case XName => Some(r.(name := val))
    case XA => var v := parseFloat(val); if v.None? then None else Some(r.(aa := v.value))
    case XB => var v := parseFloat(val); if v.None? then None else Some(r.(bb := v.value))
    case XC => var v := parseFloat(val); if v.None? then None else Some(r.(cc := v.value))
    case XD => var v := parseFloat(val); if v.None? then None else Some(r.(dd := v.value))
    case XE => var v := parseFloat(val); if v.None? then None else Some(r.(ee := v.value))
    case XNuBar => var v := parseFloat(val); if v.None? then None else Some(r.(nuBar := v.value))
  }

  /** Applying an entry fails exactly when its value cannot be read. */
  lemma SetCrossSectionFieldOk(r: CrossSectionParameters, k: CrossSectionKey, val: string, parseFloat: FloatParser)
    ensures SetCrossSectionField(r, k, val, parseFloat).Some? <==> CrossSectionValueOk(k, val, parseFloat)
  {
  }

  /** The entries of a block, by key. */
  function CrossSectionEntries(block: Block): map<CrossSectionKey, string>
  {
    map k | k in ALL_CROSSSECTION_KEYS && CrossSectionKeyName(k) in block :: block[CrossSectionKeyName(k)]
  }

  /** The record built from some entries: each field named by one of them
      is read from its value, every other field keeps its default. */
  function CrossSectionFromEntries(entries: map<CrossSectionKey, string>, parseFloat: FloatParser): CrossSectionParameters
  {
    var d := DEFAULT_CROSS_SECTION;
    CrossSectionParameters(
      TextEntry(entries, XName, d.name),
      FloatEntry(entries, XA, d.aa, parseFloat),
      FloatEntry(entries, XB, d.bb, parseFloat),
      FloatEntry(entries, XC, d.cc, parseFloat),
      FloatEntry(entries, XD, d.dd, parseFloat),
      FloatEntry(entries, XE, d.ee, parseFloat),
      FloatEntry(entries, XNuBar, d.nuBar, parseFloat))
  }

  /** Reading one more accepted entry sets exactly its field. */
  lemma CrossSectionStep(entries: map<CrossSectionKey, string>, k: CrossSectionKey, val: string, parseFloat: FloatParser)
    requires CrossSectionValueOk(k, val, parseFloat)
    ensures SetCrossSectionField(CrossSectionFromEntries(entries, parseFloat), k, val, parseFloat)
      == Some(CrossSectionFromEntries(entries[k := val], parseFloat))
  {
  }

  /** The keys read so far follow the entries read so far. */
  lemma CrossSectionSeenStep(block: Block, entries: map<CrossSectionKey, string>, seen: set<string>, key: string)
    requires key in block && CrossSectionKeyOf(key).Some?
    requires forall j :: j in entries <==> CrossSectionKeyName(j) in seen
    requires forall j :: j in entries ==> CrossSectionKeyName(j) in block && entries[j] == block[CrossSectionKeyName(j)]
    ensures forall j :: j in entries[CrossSectionKeyOf(key).value := block[key]] <==> CrossSectionKeyName(j) in seen + {key}
    ensures forall j :: j in entries[CrossSectionKeyOf(key).value := block[key]] ==>
      CrossSectionKeyName(j) in block && entries[CrossSectionKeyOf(key).value := block[key]][j] == block[CrossSectionKeyName(j)]
  {
    forall j
      ensures j in entries[CrossSectionKeyOf(key).value := block[key]] <==> CrossSectionKeyName(j) in seen + {key}
    {
      CrossSectionKeyRoundTrip(j);
    }
  }

  /** CrossSectionParameters::from_block: accepted iff every entry has a known
      key and a readable value; fields without an entry keep their defaults. */
  method CrossSectionFromBlock(block: Block, parseFloat: FloatParser) returns (r: Result<CrossSectionParameters, InputError>)
    ensures r.Ok? <==> forall k :: k in block ==> CrossSectionEntryOk(k, block[k], parseFloat)
    ensures r.Err? ==> r.error == BadCrossSectionBlock
    ensures r.Ok? ==> r.value == CrossSectionFromEntries(CrossSectionEntries(block), parseFloat)
  {
    var params := DEFAULT_CROSS_SECTION;
    var todo := block.Keys;
    ghost var entries: map<CrossSectionKey, string> := map[];
    while todo != {}
      invariant todo <= block.Keys
      invariant forall k :: k in block.Keys - todo ==> CrossSectionEntryOk(k, block[k], parseFloat)
      invariant forall k :: k in entries <==> CrossSectionKeyName(k) in block.Keys - todo
      invariant forall k :: k in entries ==> CrossSectionKeyName(k) in block && entries[k] == block[CrossSectionKeyName(k)]
      invariant params == CrossSectionFromEntries(entries, parseFloat)
      decreases todo
    {
      var key :| key in todo;
      var k := CrossSectionKeyOf(key);
      if k.None? {
        return Err(BadCrossSectionBlock);
      }
      var next := SetCrossSectionField(params, k.value, block[key], parseFloat);
      SetCrossSectionFieldOk(params, k.value, block[key], parseFloat);
      if next.None? {
        return Err(BadCrossSectionBlock);
      }
      CrossSectionStep(entries, k.value, block[key], parseFloat);
      params := next.value;
      CrossSectionSeenStep(block, entries, block.Keys - todo, key);
      assert block.Keys - (todo - {key}) == (block.Keys - todo) + {key};
      entries := entries[k.value := block[key]];
      todo := todo - {key};
    }
    forall k | true
      ensures k in entries <==> k in CrossSectionEntries(block)
    {
      AllCrossSectionKeys(k);
    }
    assert entries == CrossSectionEntries(block);
    return Ok(params);
  }

  // ---- simulation parameters ----

  /** The simulation settings: file names, switches, sizes, counts, the time
      step, the energy range and the benchmark type. Counts and the seed are
      u64 / usize values. */
  datatype SimulationParameters = SimulationParameters(
    inputFile: string,
    energySpectrum: string,
    crossSectionsOut: string,
    boundaryCondition: string,
    loadBalance: bool,
    debugThreads: bool,
    nParticles: nat,
    nThreads: nat,
    nSteps: nat,
    nx: nat,
    ny: nat,
    nz: nat,
    seed: nat,
    dt: real,
    lx: real,
    ly: real,
    lz: real,
    eMin: real,
    eMax: real,
    nGroups: nat,
    lowWeightCutoff: real,
    coralBenchmark: BenchType)

  const DEFAULT_SIMULATION: SimulationParameters :=
    SimulationParameters(
      "", "", "", "reflect", false, false,
      1000000, 1, 10, 10, 10, 10, 1029384756,
      0.00000001, 100.0, 100.0, 100.0, 0.000000001, 20.0, 230, 0.001, Standard)

  /** A switch value: only its first character counts, '0' or '1'. */
  function ParseFlag(val: string): Option<bool>
  {
    if |val| == 0 then None
    else if val[0] == '0' then Some(false)
    else if val[0] == '1' then Some(true)
    else None
  }

  /** A benchmark value: only its first character counts, '0', '1' or '2'. */
  function ParseBench(val: string): Option<BenchType>
  {
    if |val| == 0 then None
    else if val[0] == '0' then Some(Standard)
    else if val[0] == '1' then Some(Coral1)
    else if val[0] == '2' then Some(Coral2)
    else None
  }

  /** Keys kept for compatibility with older input files; they are accepted
      and have no effect. */
  const LEGACY_SIMULATION_KEYS: set<string> := {
    "cycleTimers", "batchSize", "nBatches", "balanceTallyReplications", "bTally",
    "fluxTallyReplications", "fTally", "cellTallyReplications", "cTally",
    "xDom", "yDom", "zDom", "fMax", "mpiThreadMultiple"}

  /** The keys whose value is read by its first character. */
  const CHARACTER_KEYS: set<string> := {"loadBalance", "debugThreads", "coralBenchmark"}

  /** The keys of a simulation block that set a field. */
  datatype SimulationKey =
    | SInputFile | SEnergySpectrum | SCrossSectionsOut | SBoundaryCondition | SLoadBalance | SDebugThreads | SCoralBenchmark | SNParticles | SNSteps | SNx | SNy | SNz | SSeed | SDt | SLx | SLy | SLz | SEMin | SEMax | SNGroups | SLowWeightCutoff

  /** The field key a simulation entry names, if any. */
  function SimulationKeyOf(s: string): (r: Option<SimulationKey>)
    ensures r.Some? ==> s == SimulationKeyName(r.value)
  {
    if s == "inputFile" then Some(SInputFile)
    else if s == "energySpectrum" then Some(SEnergySpectrum)
    else if s == "crossSectionsOut" then Some(SCrossSectionsOut)
    else if s == "boundaryCondition" then Some(SBoundaryCondition)
    else if s == "loadBalance" then Some(SLoadBalance)
    else if s == "debugThreads" then Some(SDebugThreads)
    else if s == "coralBenchmark" then Some(SCoralBenchmark)
    else if s == "nParticles" then Some(SNParticles)
    else if s == "nSteps" then Some(SNSteps)
    else if s == "nx" then Some(SNx)
    else if s == "ny" then Some(SNy)
    else if s == "nz" then Some(SNz)
    else if s == "seed" then Some(SSeed)
    else if s == "dt" then Some(SDt)
    else if s == "lx" then Some(SLx)
    else if s == "ly" then Some(SLy)
    else if s == "lz" then Some(SLz)
    else if s == "eMin" then Some(SEMin)
    else if s == "eMax" then Some(SEMax)
    else if s == "nGroups" then Some(SNGroups)
    else if s == "lowWeightCutoff" then Some(SLowWeightCutoff)
    else None
  }

  /** The text of a key. */
  function SimulationKeyName(k: SimulationKey): string
  {
    match k
    case SInputFile => "inputFile"
    case SEnergySpectrum => "energySpectrum"
    case SCrossSectionsOut => "crossSectionsOut"
    case SBoundaryCondition => "boundaryCondition"
    case SLoadBalance => "loadBalance"
    case SDebugThreads => "debugThreads"
    case SCoralBenchmark => "coralBenchmark"
    case SNParticles => "nParticles"
    case SNSteps => "nSteps"
    case SNx => "nx"
    case SNy => "ny"
    case SNz => "nz"
    case SSeed => "seed"
    case SDt => "dt"
    case SLx => "lx"
    case SLy => "ly"
    case SLz => "lz"
    case SEMin => "eMin"
    case SEMax => "eMax"
    case SNGroups => "nGroups"
    case SLowWeightCutoff => "lowWeightCutoff"
  }

  /** Key names and keys correspond one to one. */
  lemma SimulationKeyRoundTrip(k: SimulationKey)
    ensures SimulationKeyOf(SimulationKeyName(k)) == Some(k)
  {
    match k
    case SInputFile =>
    case SEnergySpectrum =>
    case SCrossSectionsOut =>
    case SBoundaryCondition =>
    case SLoadBalance =>
    case SDebugThreads =>
    case SCoralBenchmark =>
    case SNParticles =>
    case SNSteps =>
    case SNx =>
    case SNy =>
    case SNz =>
    case SSeed =>
    case SDt =>
    case SLx =>
    case SLy =>
    case SLz =>
    case SEMin =>
    case SEMax =>
    case SNGroups =>
    case SLowWeightCutoff =>
  }

  const ALL_SIMULATION_KEYS: seq<SimulationKey> :=
    [SInputFile, SEnergySpectrum, SCrossSectionsOut, SBoundaryCondition, SLoadBalance, SDebugThreads, SCoralBenchmark, SNParticles, SNSteps, SNx, SNy, SNz, SSeed, SDt, SLx, SLy, SLz, SEMin, SEMax, SNGroups, SLowWeightCutoff]

  lemma AllSimulationKeys(k: SimulationKey)
    ensures k in ALL_SIMULATION_KEYS
  {
  }

  /** The value of a key can be read. */
  predicate SimulationValueOk(k: SimulationKey, val: string, parseFloat: FloatParser)
  {
    match k
    case SInputFile => true
    case SEnergySpectrum => true
    case SCrossSectionsOut => true
    case SBoundaryCondition => true
    case SLoadBalance => ParseFlag(val).Some?
    case SDebugThreads => ParseFlag(val).Some?
    case SCoralBenchmark => ParseBench(val).Some?
    case SNParticles => ParseUnsigned(val).Some?
    case SNSteps => ParseUnsigned(val).Some?
    case SNx => ParseUnsigned(val).Some?
    case SNy => ParseUnsigned(val).Some?
    case SNz => ParseUnsigned(val).Some?
    case SSeed => ParseUnsigned(val).Some?
    case SDt => parseFloat(val).Some?
    case SLx => parseFloat(val).Some?
    case SLy => parseFloat(val).Some?
    case SLz => parseFloat(val).Some?
    case SEMin => parseFloat(val).Some?
    case SEMax => parseFloat(val).Some?
    case SNGroups => ParseUnsigned(val).Some?
    case SLowWeightCutoff => parseFloat(val).Some?
  }

  /** One entry applied to the simulation parameters; None when its value is
      unreadable. */
  function SetSimulationField(r: SimulationParameters, k: SimulationKey, val: string, parseFloat: FloatParser): Option<SimulationParameters>
  {
    match k
    case SInputFile => Some(r.(inputFile := val))
    case SEnergySpectrum => Some(r.(energySpectrum := val))
    case SCrossSectionsOut => Some(r.(crossSectionsOut := val))
    case SBoundaryCondition => Some(r.(boundaryCondition := val))
    case SLoadBalance => var v := ParseFlag(val); if v.None? then None else Some(r.(loadBalance := v.value))
    case SDebugThreads => var v := ParseFlag(val); if v.None? then None else Some(r.(debugThreads := v.value))
    case SCoralBenchmark => var v := ParseBench(val); if v.None? then None else Some(r.(coralBenchmark := v.value))
    case SNParticles => var v := ParseUnsigned(val); if v.None? then None else Some(r.(nParticles := v.value))
    case SNSteps => var v := ParseUnsigned(val); if v.None? then None else Some(r.(nSteps := v.value))
    case SNx => var v := ParseUnsigned(val); if v.None? then None else Some(r.(nx := v.value))
    case SNy => var v := ParseUnsigned(val); if v.None? then None else Some(r.(ny := v.value))
    case SNz => var v := ParseUnsigned(val); if v.None? then None else Some(r.(nz := v.value))
    case SSeed => var v := ParseUnsigned(val); if v.None? then None else Some(r.(seed := v.value))
    case SDt => var v := parseFloat(val); if v.None? then None else Some(r.(dt := v.value))
    case SLx => var v := parseFloat(val); if v.None? then None else Some(r.(lx := v.value))
    case SLy => var v := parseFloat(val); if v.None? then None else Some(r.(ly := v.value))
    case SLz => var v := parseFloat(val); if v.None? then None else Some(r.(lz := v.value))
    case SEMin => var v := parseFloat(val); if v.None? then None else Some(r.(eMin := v.value))
    case SEMax => var v := parseFloat(val); if v.None? then None else Some(r.(eMax := v.value))
    case SNGroups => var v := ParseUnsigned(val); if v.None? then None else Some(r.(nGroups := v.value))
    case SLowWeightCutoff => var v := parseFloat(val); if v.None? then None else Some(r.(lowWeightCutoff := v.value))
  }

  /** Applying an entry fails exactly when its value cannot be read. */
  lemma SetSimulationFieldOk(r: SimulationParameters, k: SimulationKey, val: string, parseFloat: FloatParser)
    ensures SetSimulationField(r, k, val, parseFloat).Some? <==> SimulationValueOk(k, val, parseFloat)
  {
  }

  /** The field entries of a block, by key. */
  function SimulationEntries(block: Block): map<SimulationKey, string>
  {
    map k | k in ALL_SIMULATION_KEYS && SimulationKeyName(k) in block :: block[SimulationKeyName(k)]
  }

  /** The simulation parameters after some entries: each field named by one
      of them is read from its value, every other field keeps its value in
      `base`. */
  function SimulationFromEntries(base: SimulationParameters, entries: map<SimulationKey, string>, parseFloat: FloatParser): SimulationParameters
  {
    SimulationParameters(
      TextEntry(entries, SInputFile, base.inputFile),
      TextEntry(entries, SEnergySpectrum, base.energySpectrum),
      TextEntry(entries, SCrossSectionsOut, base.crossSectionsOut),
      TextEntry(entries, SBoundaryCondition, base.boundaryCondition),
      if SLoadBalance in entries then Or(ParseFlag(entries[SLoadBalance]), base.loadBalance) else base.loadBalance,
      if SDebugThreads in entries then Or(ParseFlag(entries[SDebugThreads]), base.debugThreads) else base.debugThreads,
      NatEntry(entries, SNParticles, base.nParticles),
      base.nThreads,
      NatEntry(entries, SNSteps, base.nSteps),
      NatEntry(entries, SNx, base.nx),
      NatEntry(entries, SNy, base.ny),
      NatEntry(entries, SNz, base.nz),
      NatEntry(entries, SSeed, base.seed),
      FloatEntry(entries, SDt, base.dt, parseFloat),
      FloatEntry(entries, SLx, base.lx, parseFloat),
      FloatEntry(entries, SLy, base.ly, parseFloat),
      FloatEntry(entries, SLz, base.lz, parseFloat),
      FloatEntry(entries, SEMin, base.eMin, parseFloat),
      FloatEntry(entries, SEMax, base.eMax, parseFloat),
      NatEntry(entries, SNGroups, base.nGroups),
      FloatEntry(entries, SLowWeightCutoff, base.lowWeightCutoff, parseFloat),
      if SCoralBenchmark in entries then Or(ParseBench(entries[SCoralBenchmark]), base.coralBenchmark) else base.coralBenchmark)
  }

  lemma SimulationStepText(base: SimulationParameters, entries: map<SimulationKey, string>, k: SimulationKey, val: string, parseFloat: FloatParser)
    requires k.SInputFile? || k.SEnergySpectrum? || k.SCrossSectionsOut? || k.SBoundaryCondition?
    requires SimulationValueOk(k, val, parseFloat)
    ensures SetSimulationField(SimulationFromEntries(base, entries, parseFloat), k, val, parseFloat)
      == Some(SimulationFromEntries(base, entries[k := val], parseFloat))
  {
  }

  lemma SimulationStepSwitch(base: SimulationParameters, entries: map<SimulationKey, string>, k: SimulationKey, val: string, parseFloat: FloatParser)
    requires k.SLoadBalance? || k.SDebugThreads? || k.SCoralBenchmark?
    requires SimulationValueOk(k, val, parseFloat)
    ensures SetSimulationField(SimulationFromEntries(base, entries, parseFloat), k, val, parseFloat)
      == Some(SimulationFromEntries(base, entries[k := val], parseFloat))
  {
  }

  lemma SimulationStepCount(base: SimulationParameters, entries: map<SimulationKey, string>, k: SimulationKey, val: string, parseFloat: FloatParser)
    requires k.SNParticles? || k.SNSteps? || k.SNx? || k.SNy? || k.SNz? || k.SSeed? || k.SNGroups?
    requires SimulationValueOk(k, val, parseFloat)
    ensures SetSimulationField(SimulationFromEntries(base, entries, parseFloat), k, val, parseFloat)
      == Some(SimulationFromEntries(base, entries[k := val], parseFloat))
  {
  }

  lemma SimulationStepReal(base: SimulationParameters, entries: map<SimulationKey, string>, k: SimulationKey, val: string, parseFloat: FloatParser)
    requires k.SDt? || k.SLx? || k.SLy? || k.SLz? || k.SEMin? || k.SEMax? || k.SLowWeightCutoff?
    requires SimulationValueOk(k, val, parseFloat)
    ensures SetSimulationField(SimulationFromEntries(base, entries, parseFloat), k, val, parseFloat)
      == Some(SimulationFromEntries(base, entries[k := val], parseFloat))
  {
  }

  /** Reading one more accepted entry sets exactly its field. */
  lemma SimulationStep(base: SimulationParameters, entries: map<SimulationKey, string>, k: SimulationKey, val: string, parseFloat: FloatParser)
    requires SimulationValueOk(k, val, parseFloat)
    ensures SetSimulationField(SimulationFromEntries(base, entries, parseFloat), k, val, parseFloat)
      == Some(SimulationFromEntries(base, entries[k := val], parseFloat))
  {
    if k.SInputFile? || k.SEnergySpectrum? || k.SCrossSectionsOut? || k.SBoundaryCondition? {
      SimulationStepText(base, entries, k, val, parseFloat);
    } else if k.SLoadBalance? || k.SDebugThreads? || k.SCoralBenchmark? {
      SimulationStepSwitch(base, entries, k, val, parseFloat);
    } else if k.SNParticles? || k.SNSteps? || k.SNx? || k.SNy? || k.SNz? || k.SSeed? || k.SNGroups? {
      SimulationStepCount(base, entries, k, val, parseFloat);
    } else {
      SimulationStepReal(base, entries, k, val, parseFloat);
    }
  }

  /** The field entries read so far are those of the keys in seen. */
  ghost predicate SimulationSeen(block: Block, entries: map<SimulationKey, string>, seen: set<string>)
  {
    (forall j :: j in entries <==> SimulationKeyName(j) in seen) &&
    (forall j :: j in entries ==> SimulationKeyName(j) in block && entries[j] == block[SimulationKeyName(j)])
  }

  /** Reading one more key of the block keeps SimulationSeen. */
  lemma SimulationSeenStep(block: Block, entries: map<SimulationKey, string>, seen: set<string>, key: string)
    requires key in block && SimulationSeen(block, entries, seen)
    ensures SimulationKeyOf(key).Some? ==>
      SimulationSeen(block, entries[SimulationKeyOf(key).value := block[key]], seen + {key})
    ensures SimulationKeyOf(key).None? ==> SimulationSeen(block, entries, seen + {key})
  {
    forall j
      ensures SimulationKeyOf(key).Some? ==>
        (j in entries[SimulationKeyOf(key).value := block[key]] <==> SimulationKeyName(j) in seen + {key})
      ensures SimulationKeyOf(key).None? ==> (j in entries <==> SimulationKeyName(j) in seen + {key})
    {
      SimulationKeyRoundTrip(j);
    }
  }

  /** The field entries after reading one more entry. */
  function NextEntries(entries: map<SimulationKey, string>, key: string, val: string): map<SimulationKey, string>
  {
    if SimulationKeyOf(key).Some? then entries[SimulationKeyOf(key).value := val] else entries
  }

  /** One accepted entry of the loop of ApplySimulationBlock keeps its
      invariant. */
  lemma SimulationLoopStep(block: Block, base: SimulationParameters, entries: map<SimulationKey, string>,
                           seen: set<string>, key: string, p: SimulationParameters, q: SimulationParameters,
                           parseFloat: FloatParser)
    requires key in block && SimulationSeen(block, entries, seen) && p == SimulationFromEntries(base, entries, parseFloat)
    requires SimulationEntryOk(key, block[key], parseFloat)
    requires SimulationKeyOf(key).Some? ==>
      Some(q) == SetSimulationField(p, SimulationKeyOf(key).value, block[key], parseFloat)
    requires SimulationKeyOf(key).None? ==> q == p
    ensures SimulationSeen(block, NextEntries(entries, key, block[key]), seen + {key})
    ensures q == SimulationFromEntries(base, NextEntries(entries, key, block[key]), parseFloat)
  {
    SimulationSeenStep(block, entries, seen, key);
    LegacyKeysSetNothing(key);
    if SimulationKeyOf(key).Some? {
      SimulationStep(base, entries, SimulationKeyOf(key).value, block[key], parseFloat);
    }
  }

  /** Once every key is read, the entries are those of the block. */
  lemma SimulationSeenAll(block: Block, entries: map<SimulationKey, string>)
    requires SimulationSeen(block, entries, block.Keys)
    ensures entries == SimulationEntries(block)
  {
    forall j | true
      ensures j in entries <==> j in SimulationEntries(block)
    {
      AllSimulationKeys(j);
    }
  }

  /** A legacy key is never a field key. */
  lemma LegacyKeysSetNothing(key: string)
    ensures key in LEGACY_SIMULATION_KEYS ==> SimulationKeyOf(key).None?
  {
  }

  /** A simulation entry is accepted: a legacy key, or a field key with a
      readable value. */
  predicate SimulationEntryOk(key: string, val: string, parseFloat: FloatParser)
  {
    key in LEGACY_SIMULATION_KEYS ||
    (SimulationKeyOf(key).Some? && SimulationValueOk(SimulationKeyOf(key).value, val, parseFloat))
  }

  /** Indexing the first character of an empty value panics. */
  predicate SimulationEntryPanics(key: string, val: string)
  {
    key in CHARACTER_KEYS && val == ""
  }

  /** A panicking entry is never an accepted one. */
  lemma PanicsAreNotAccepted(key: string, val: string, parseFloat: FloatParser)
    requires SimulationEntryPanics(key, val)
    ensures !SimulationEntryOk(key, val, parseFloat)
  {
    assert SimulationKeyOf(key).Some?;
  }

  /** Every entry of the block is accepted. */
  predicate SimulationBlockOk(block: Block, parseFloat: FloatParser)
  {
    forall k :: k in block ==> SimulationEntryOk(k, block[k], parseFloat)
  }

  /** Some entry of the block panics. */
  predicate SimulationBlockPanics(block: Block)
  {
    exists k :: k in block && SimulationEntryPanics(k, block[k])
  }

  /** Some entry of the block is rejected without panicking. */
  predicate SimulationBlockRejects(block: Block, parseFloat: FloatParser)
  {
    exists k :: k in block && !SimulationEntryOk(k, block[k], parseFloat) && !SimulationEntryPanics(k, block[k])
  }

  /** p is settings with some of the block's field entries applied. */
  ghost predicate PartlyApplied(settings: SimulationParameters, block: Block, p: SimulationParameters, parseFloat: FloatParser)
  {
    exists applied: map<SimulationKey, string> ::
      (forall j :: j in applied ==> SimulationKeyName(j) in block && applied[j] == block[SimulationKeyName(j)]) &&
      p == SimulationFromEntries(settings, applied, parseFloat)
  }

  /** How update_simulation_parameters ends: Ok, Err, or a panic. */
  datatype UpdateOutcome = Updated | Rejected(error: InputError) | Panicked

  /** One entry of a simulation block applied to the settings p: a field key
      with a readable value sets its field, a legacy key does nothing, an
      empty value of a key read by its first character panics, anything
      else is rejected; q is p when the entry is not accepted. */
  method ApplySimulationEntry(p: SimulationParameters, key: string, val: string, parseFloat: FloatParser)
    returns (r: UpdateOutcome, q: SimulationParameters)
    ensures r == Updated <==> SimulationEntryOk(key, val, parseFloat)
    ensures r == Panicked <==> SimulationEntryPanics(key, val)
    ensures r.Rejected? ==> r.error == BadSimulationBlock
    ensures r == Updated && SimulationKeyOf(key).Some? ==>
      Some(q) == SetSimulationField(p, SimulationKeyOf(key).value, val, parseFloat)
    ensures r == Updated && SimulationKeyOf(key).None? ==> q == p
    ensures r != Updated ==> q == p
  {
    q := p;
    var k := SimulationKeyOf(key);
    if k.None? {
      if key in LEGACY_SIMULATION_KEYS {
        return Updated, q;
      }
      return Rejected(BadSimulationBlock), q;
    }
    LegacyKeysSetNothing(key);
    if SimulationEntryPanics(key, val) {
      PanicsAreNotAccepted(key, val, parseFloat);
      return Panicked, q;
    }
    var next := SetSimulationField(p, k.value, val, parseFloat);
    SetSimulationFieldOk(p, k.value, val, parseFloat);
    if next.None? {
      return Rejected(BadSimulationBlock), q;
    }
    return Updated, next.value;
  }

  /** The invariant of the loop of ApplySimulationBlock: the keys in done
      were accepted and p is settings with their field entries applied. */
  ghost predicate BlockLoop(settings: SimulationParameters, block: Block, done: set<string>,
                            entries: map<SimulationKey, string>, p: SimulationParameters, parseFloat: FloatParser)
  {
    done <= block.Keys &&
    (forall k :: k in done ==> SimulationEntryOk(k, block[k], parseFloat)) &&
    SimulationSeen(block, entries, done) &&
    p == SimulationFromEntries(settings, entries, parseFloat)
  }

  lemma BlockLoopStart(settings: SimulationParameters, block: Block, parseFloat: FloatParser)
    ensures BlockLoop(settings, block, {}, map[], settings, parseFloat)
  {
  }

  lemma BlockLoopStep(settings: SimulationParameters, block: Block, done: set<string>,
                      entries: map<SimulationKey, string>, p: SimulationParameters, q: SimulationParameters,
                      key: string, parseFloat: FloatParser)
    requires BlockLoop(settings, block, done, entries, p, parseFloat)
    requires key in block && SimulationEntryOk(key, block[key], parseFloat)
    requires SimulationKeyOf(key).Some? ==>
      Some(q) == SetSimulationField(p, SimulationKeyOf(key).value, block[key], parseFloat)
    requires SimulationKeyOf(key).None? ==> q == p
    ensures BlockLoop(settings, block, done + {key}, NextEntries(entries, key, block[key]), q, parseFloat)
  {
    SimulationLoopStep(block, settings, entries, done, key, p, q, parseFloat);
  }

  /** An entry that is not accepted stops the loop with what it has applied. */
  lemma BlockLoopStop(settings: SimulationParameters, block: Block, done: set<string>,
                      entries: map<SimulationKey, string>, p: SimulationParameters, key: string,
                      r: UpdateOutcome, parseFloat: FloatParser)
    requires BlockLoop(settings, block, done, entries, p, parseFloat)
    requires key in block && !SimulationEntryOk(key, block[key], parseFloat) && r != Updated
    requires r == Panicked <==> SimulationEntryPanics(key, block[key])
    ensures !SimulationBlockOk(block, parseFloat)
    ensures r == Panicked ==> SimulationBlockPanics(block)
    ensures r.Rejected? ==> SimulationBlockRejects(block, parseFloat)
  {
  }

  /** Once every entry is accepted, the settings are those of the block. */
  lemma BlockLoopEnd(settings: SimulationParameters, block: Block,
                     entries: map<SimulationKey, string>, p: SimulationParameters, parseFloat: FloatParser)
    requires BlockLoop(settings, block, block.Keys, entries, p, parseFloat)
    ensures SimulationBlockOk(block, parseFloat)
    ensures p == SimulationFromEntries(settings, SimulationEntries(block), parseFloat)
  {
    SimulationSeenAll(block, entries);
  }

  /** At every point of the loop, p is settings with some of the block's
      entries applied. */
  lemma BlockLoopPartly(settings: SimulationParameters, block: Block, done: set<string>,
                        entries: map<SimulationKey, string>, p: SimulationParameters, parseFloat: FloatParser)
    requires BlockLoop(settings, block, done, entries, p, parseFloat)
    ensures PartlyApplied(settings, block, p, parseFloat)
  {
  }

  /** The loop of update_simulation_parameters: the block is applied entry by
      entry to the settings, in the map's iteration order.
      - It ends with Ok exactly when every entry is accepted, and then each
        field named by an entry is read from it, every other field (and every
        legacy key) changes nothing.
      - It panics only on an empty value of a key read by its first
        character, and fails only with BadSimulationBlock on an entry that is
        not accepted; which of several bad entries stops it depends on the
        iteration order.
      - Whatever the outcome, the settings are the old ones with some of the
        block's entries applied (an early stop keeps the entries applied
        before it), and nothing else changes. */
  method ApplySimulationBlock(settings: SimulationParameters, block: Block, parseFloat: FloatParser)
    returns (r: UpdateOutcome, p: SimulationParameters)
    ensures r == Updated <==> SimulationBlockOk(block, parseFloat)
    ensures r == Updated ==> p == SimulationFromEntries(settings, SimulationEntries(block), parseFloat)
    ensures r == Panicked ==> SimulationBlockPanics(block)
    ensures r.Rejected? ==> r.error == BadSimulationBlock && SimulationBlockRejects(block, parseFloat)
    ensures PartlyApplied(settings, block, p, parseFloat)
  {
    p := settings;
    var todo := block.Keys;
    ghost var entries: map<SimulationKey, string> := map[];
    BlockLoopStart(settings, block, parseFloat);
    while todo != {}
      invariant todo <= block.Keys
      invariant BlockLoop(settings, block, block.Keys - todo, entries, p, parseFloat)
      decreases todo
    {
      var key :| key in todo;
      var val := block[key];
      var q;
      r, q := ApplySimulationEntry(p, key, val, parseFloat);
      if r != Updated {
        BlockLoopStop(settings, block, block.Keys - todo, entries, p, key, r, parseFloat);
        BlockLoopPartly(settings, block, block.Keys - todo, entries, p, parseFloat);
        return;
      }
      BlockLoopStep(settings, block, block.Keys - todo, entries, p, q, key, parseFloat);
      assert block.Keys - (todo - {key}) == (block.Keys - todo) + {key};
      p := q;
      entries := NextEntries(entries, key, val);
      todo := todo - {key};
    }
    BlockLoopEnd(settings, block, entries, p, parseFloat);
    BlockLoopPartly(settings, block, block.Keys, entries, p, parseFloat);
    return Updated, p;
  }

  // ---- command line ----

  /** The command-line options that initialise the simulation parameters. */
  datatype Cli = Cli(
    inputFile: Option<string>,
    energySpectrum: Option<string>,
    crossSectionsOut: Option<string>,
    dt: Option<real>,
    loadBalance: bool,
    debugThreads: bool,
    lx: Option<real>,
    ly: Option<real>,
    lz: Option<real>,
    nParticles: Option<nat>,
    nThreads: Option<nat>,
    nSteps: Option<nat>,
    nx: Option<nat>,
    ny: Option<nat>,
    nz: Option<nat>,
    seed: Option<nat>)

  /** SimulationParameters::from_cli: start from the defaults and override
      every field the command line gives; the two switches are always taken
      from it; the fields it has no option for keep their defaults. */
  method SimulationFromCli(cli: Cli) returns (p: SimulationParameters)
    ensures p.inputFile == Or(cli.inputFile, DEFAULT_SIMULATION.inputFile)
    ensures p.energySpectrum == Or(cli.energySpectrum, DEFAULT_SIMULATION.energySpectrum)
    ensures p.crossSectionsOut == Or(cli.crossSectionsOut, DEFAULT_SIMULATION.crossSectionsOut)
    ensures p.loadBalance == cli.loadBalance && p.debugThreads == cli.debugThreads
    ensures p.dt == Or(cli.dt, DEFAULT_SIMULATION.dt)
    ensures p.lx == Or(cli.lx, DEFAULT_SIMULATION.lx)
    ensures p.ly == Or(cli.ly, DEFAULT_SIMULATION.ly)
    ensures p.lz == Or(cli.lz, DEFAULT_SIMULATION.lz)
    ensures p.nParticles == Or(cli.nParticles, DEFAULT_SIMULATION.nParticles)
    ensures p.nThreads == Or(cli.nThreads, DEFAULT_SIMULATION.nThreads)
    ensures p.nSteps == Or(cli.nSteps, DEFAULT_SIMULATION.nSteps)
    ensures p.nx == Or(cli.nx, DEFAULT_SIMULATION.nx)
    ensures p.ny == Or(cli.ny, DEFAULT_SIMULATION.ny)
    ensures p.nz == Or(cli.nz, DEFAULT_SIMULATION.nz)
    ensures p.seed == Or(cli.seed, DEFAULT_SIMULATION.seed)
    ensures p.boundaryCondition == DEFAULT_SIMULATION.boundaryCondition
    ensures p.eMin == DEFAULT_SIMULATION.eMin && p.eMax == DEFAULT_SIMULATION.eMax
    ensures p.nGroups == DEFAULT_SIMULATION.nGroups
    ensures p.lowWeightCutoff == DEFAULT_SIMULATION.lowWeightCutoff
    ensures p.coralBenchmark == DEFAULT_SIMULATION.coralBenchmark
  {
    p := DEFAULT_SIMULATION;
    p := p.(inputFile := Or(cli.inputFile, p.inputFile));
    p := p.(energySpectrum := Or(cli.energySpectrum, p.energySpectrum));
    p := p.(crossSectionsOut := Or(cli.crossSectionsOut, p.crossSectionsOut));
    p := p.(dt := Or(cli.dt, p.dt));
    p := p.(loadBalance := cli.loadBalance);
    p := p.(debugThreads := cli.debugThreads);
    p := p.(lx := Or(cli.lx, p.lx));
    p := p.(ly := Or(cli.ly, p.ly));
    p := p.(lz := Or(cli.lz, p.lz));
    p := p.(nParticles := Or(cli.nParticles, p.nParticles));
    p := p.(nThreads := Or(cli.nThreads, p.nThreads));
    p := p.(nSteps := Or(cli.nSteps, p.nSteps));
    p := p.(nx := Or(cli.nx, p.nx));
    p := p.(ny := Or(cli.ny, p.ny));
    p := p.(nz := Or(cli.nz, p.nz));
    p := p.(seed := Or(cli.seed, p.seed));
  }

  // ---- the whole problem description ----

  /** The contents of a Parameters object, as a value. */
  datatype ParametersState = ParametersState(
    simulation: SimulationParameters,
    geometries: seq<GeometryParameters>,
    materials: map<string, MaterialParameters>,
    crossSections: map<string, CrossSectionParameters>)

  /** The three cross sections a material refers to. */
  function CrossSectionsOf(m: MaterialParameters): set<string>
  {
    {m.absorptionCrossSection, m.scatteringCrossSection, m.fissionCrossSection}
  }

  /** A problem can be simulated: there is a geometry, every shape is
      defined, every material a geometry names exists and every cross
      section a material names exists. */
  predicate IntegrityOk(s: ParametersState)
  {
    |s.geometries| > 0 &&
    (forall i :: 0 <= i < |s.geometries| ==>
      s.geometries[i].shape != Undefined && s.geometries[i].materialName in s.materials) &&
    (forall name :: name in s.materials ==> CrossSectionsOf(s.materials[name]) <= s.crossSections.Keys)
  }

  /** The geometry errors found in the first n geometries. */
  function GeometryErrors(s: ParametersState, n: nat): set<ParameterError>
    requires n <= |s.geometries|
  {
    (set i | 0 <= i < n && s.geometries[i].shape == Undefined :: UndefinedGeometry) +
    (set i | 0 <= i < n && s.geometries[i].materialName !in s.materials ::
      MissingMaterial(s.geometries[i].materialName))
  }

  /** The missing cross sections of the materials whose names are in done,
      each reported as "material:cross section". */
  function CrossSectionErrors(s: ParametersState, done: set<string>): set<ParameterError>
  {
    set name, x | name in done && name in s.materials && x in CrossSectionsOf(s.materials[name]) &&
      x !in s.crossSections :: MissingCrossSection(s.materials[name].name + ":" + x)
  }

  /** Every error check_parameters_integrity reports. */
  function IntegrityErrors(s: ParametersState): set<ParameterError>
  {
    (if |s.geometries| == 0 then {NoGeometry} else {}) +
    GeometryErrors(s, |s.geometries|) +
    CrossSectionErrors(s, s.materials.Keys)
  }

  /** A problem passes the check exactly when no error is found. */
  lemma {:induction false} IntegrityOkIffNoErrors(s: ParametersState)
    ensures IntegrityOk(s) <==> IntegrityErrors(s) == {}
  {
    if !IntegrityOk(s) && |s.geometries| > 0 {
      if i :| 0 <= i < |s.geometries| && s.geometries[i].shape == Undefined {
        assert UndefinedGeometry in GeometryErrors(s, |s.geometries|);
      } else if i :| 0 <= i < |s.geometries| && s.geometries[i].materialName !in s.materials {
        assert MissingMaterial(s.geometries[i].materialName) in GeometryErrors(s, |s.geometries|);
      } else {
        var name, x :| name in s.materials && x in CrossSectionsOf(s.materials[name]) && x !in s.crossSections;
        assert MissingCrossSection(s.materials[name].name + ":" + x) in CrossSectionErrors(s, s.materials.Keys);
      }
    }
  }

  /** The geometry errors of one more geometry. */
  lemma GeometryErrorsStep(s: ParametersState, n: nat)
    requires n < |s.geometries|
    ensures GeometryErrors(s, n + 1) ==
      GeometryErrors(s, n) +
      (if s.geometries[n].shape == Undefined then {UndefinedGeometry} else {}) +
      (if s.geometries[n].materialName !in s.materials then {MissingMaterial(s.geometries[n].materialName)} else {})
  {
  }

  /** The cross-section errors of one more material. */
  lemma CrossSectionErrorsStep(s: ParametersState, done: set<string>, name: string)
    requires name in s.materials
    ensures CrossSectionErrors(s, done + {name}) ==
      CrossSectionErrors(s, done) +
      set x | x in CrossSectionsOf(s.materials[name]) && x !in s.crossSections ::
        MissingCrossSection(s.materials[name].name + ":" + x)
  {
  }

  /** The errors one geometry adds, in the order the check pushes them. */
  function GeometryEntryErrors(s: ParametersState, g: GeometryParameters): seq<ParameterError>
  {
    (if g.shape == Undefined then [UndefinedGeometry] else []) +
    (if g.materialName !in s.materials then [MissingMaterial(g.materialName)] else [])
  }

  /** The error list of the geometry pass over the first n geometries. */
  function GeometryErrorList(s: ParametersState, n: nat): seq<ParameterError>
    requires n <= |s.geometries|
  {
    if n == 0 then [] else GeometryErrorList(s, n - 1) + GeometryEntryErrors(s, s.geometries[n - 1])
  }

  /** The errors a list holds, without order or repetition. */
  function ErrorSet(xs: seq<ParameterError>): set<ParameterError>
  {
    set e | e in xs
  }

  lemma ErrorSetConcat(a: seq<ParameterError>, b: seq<ParameterError>)
    ensures ErrorSet(a + b) == ErrorSet(a) + ErrorSet(b)
  {
  }

  /** The geometry error list holds exactly the geometry errors. */
  lemma {:induction false} GeometryErrorListSet(s: ParametersState, n: nat)
    requires n <= |s.geometries|
    ensures ErrorSet(GeometryErrorList(s, n)) == GeometryErrors(s, n)
  {
    if n > 0 {
      GeometryErrorListSet(s, n - 1);
      GeometryErrorsStep(s, n - 1);
      var g := s.geometries[n - 1];
      ErrorSetConcat(GeometryErrorList(s, n - 1), GeometryEntryErrors(s, g));
    }
  }

  /** The errors one material adds: its absorption, scattering and fission
      cross sections, in that order, each when it is missing. */
  function MaterialEntryErrors(s: ParametersState, m: MaterialParameters): seq<ParameterError>
  {
    (if m.absorptionCrossSection !in s.crossSections then [MissingCrossSection(m.name + ":" + m.absorptionCrossSection)] else []) +
    (if m.scatteringCrossSection !in s.crossSections then [MissingCrossSection(m.name + ":" + m.scatteringCrossSection)] else []) +
    (if m.fissionCrossSection !in s.crossSections then [MissingCrossSection(m.name + ":" + m.fissionCrossSection)] else [])
  }

  /** order lists every material name once (the map's iteration order). */
  predicate Enumerates(order: seq<string>, keys: set<string>)
  {
    (forall i :: 0 <= i < |order| ==> order[i] in keys) &&
    (forall k :: k in keys ==> k in order) &&
    (forall i, j :: 0 <= i < j < |order| ==> order[i] != order[j])
  }

  /** The error list of the material pass when it meets the materials in
      the given order. */
  function MaterialErrorList(s: ParametersState, order: seq<string>): seq<ParameterError>
    requires forall i :: 0 <= i < |order| ==> order[i] in s.materials
  {
    if order == [] then []
    else MaterialErrorList(s, order[..|order| - 1]) + MaterialEntryErrors(s, s.materials[order[|order| - 1]])
  }

  /** One material's errors are its missing cross sections. */
  lemma MaterialEntryErrorsSet(s: ParametersState, m: MaterialParameters)
    ensures ErrorSet(MaterialEntryErrors(s, m)) ==
      set x | x in CrossSectionsOf(m) && x !in s.crossSections :: MissingCrossSection(m.name + ":" + x)
  {
    var a := if m.absorptionCrossSection !in s.crossSections then [MissingCrossSection(m.name + ":" + m.absorptionCrossSection)] else [];
    var b := if m.scatteringCrossSection !in s.crossSections then [MissingCrossSection(m.name + ":" + m.scatteringCrossSection)] else [];
    var c := if m.fissionCrossSection !in s.crossSections then [MissingCrossSection(m.name + ":" + m.fissionCrossSection)] else [];
    ErrorSetConcat(a, b);
    ErrorSetConcat(a + b, c);
  }

  /** Whatever the order, the material error list holds exactly the
      cross-section errors of the materials it lists. */
  lemma {:induction false} MaterialErrorListSet(s: ParametersState, order: seq<string>)
    requires forall i :: 0 <= i < |order| ==> order[i] in s.materials
    ensures ErrorSet(MaterialErrorList(s, order)) == CrossSectionErrors(s, set k | k in order)
  {
    if order != [] {
      var init, name := order[..|order| - 1], order[|order| - 1];
      MaterialErrorListSet(s, init);
      assert (set k | k in order) == (set k | k in init) + {name} by {
        assert order == init + [name];
      }
      CrossSectionErrorsStep(s, (set k | k in init), name);
      var m := s.materials[name];
      ErrorSetConcat(MaterialErrorList(s, init), MaterialEntryErrors(s, m));
      MaterialEntryErrorsSet(s, m);
    }
  }

  /** The "flat" cross section of the default problem. */
  const FLAT_CROSS_SECTION: CrossSectionParameters := DEFAULT_CROSS_SECTION.(name := "flat")

  /** The source material of the default problem, made only of "flat" cross
      sections. */
  const SOURCE_MATERIAL: MaterialParameters :=
    DEFAULT_MATERIAL.(
      name := "source_material", mass := 1000.0, sourceRate := 10000000000.0,
      scatteringCrossSection := "flat", absorptionCrossSection := "flat",
      fissionCrossSection := "flat", fissionCrossSectionRatio := 0.1)

  /** The brick of source material filling [0, lx] x [0, ly] x [0, lz]. */
  function SourceGeometry(sim: SimulationParameters): (g: GeometryParameters)
    ensures g.shape == Brick && g.materialName == SOURCE_MATERIAL.name
    ensures g.xMin == 0.0 && g.yMin == 0.0 && g.zMin == 0.0
    ensures g.xMax == sim.lx && g.yMax == sim.ly && g.zMax == sim.lz
  {
    DEFAULT_GEOMETRY.(materialName := "source_material", shape := Brick,
      xMax := sim.lx, yMax := sim.ly, zMax := sim.lz)
  }

  /** supply_defaults on a value: a problem without geometry gets the default
      problem; any other problem is kept as it is. */
  function WithDefaults(s: ParametersState): ParametersState
  {
    if |s.geometries| > 0 then s
    else s.(
      crossSections := s.crossSections[FLAT_CROSS_SECTION.name := FLAT_CROSS_SECTION],
      materials := s.materials[SOURCE_MATERIAL.name := SOURCE_MATERIAL],
      geometries := [SourceGeometry(s.simulation)])
  }

  /** Supplying defaults twice is supplying them once, and a problem with a
      geometry is left alone. */
  lemma WithDefaultsIdempotent(s: ParametersState)
    ensures WithDefaults(WithDefaults(s)) == WithDefaults(s)
    ensures |s.geometries| > 0 ==> WithDefaults(s) == s
    ensures |WithDefaults(s).geometries| > 0
  {
  }

  /** After supplying defaults to a problem without geometry, the check
      passes exactly when every other material already referred only to
      existing cross sections or to "flat". */
  lemma {:induction false} SuppliedDefaultsIntegrity(s: ParametersState)
    requires |s.geometries| == 0
    ensures IntegrityOk(WithDefaults(s)) <==>
      forall name :: name in s.materials && name != SOURCE_MATERIAL.name ==>
        CrossSectionsOf(s.materials[name]) <= s.crossSections.Keys + {FLAT_CROSS_SECTION.name}
  {
    var t := WithDefaults(s);
    assert t.geometries[0].materialName in t.materials;
    assert CrossSectionsOf(t.materials[SOURCE_MATERIAL.name]) <= t.crossSections.Keys;
    if forall name :: name in s.materials && name != SOURCE_MATERIAL.name ==>
        CrossSectionsOf(s.materials[name]) <= s.crossSections.Keys + {FLAT_CROSS_SECTION.name}
    {
      forall name | name in t.materials
        ensures CrossSectionsOf(t.materials[name]) <= t.crossSections.Keys
      {
        if name != SOURCE_MATERIAL.name {
          assert t.materials[name] == s.materials[name];
        }
      }
    } else {
      var name :| name in s.materials && name != SOURCE_MATERIAL.name &&
        !(CrossSectionsOf(s.materials[name]) <= s.crossSections.Keys + {FLAT_CROSS_SECTION.name});
      assert t.materials[name] == s.materials[name];
    }
  }

  /** A problem with no materials and no geometry, as read from an input
      holding only a simulation block, passes the check once defaults are
      supplied, and fails it before. */
  lemma DefaultProblemPasses(sim: SimulationParameters, xs: map<string, CrossSectionParameters>)
    ensures !IntegrityOk(ParametersState(sim, [], map[], xs))
    ensures IntegrityOk(WithDefaults(ParametersState(sim, [], map[], xs)))
    ensures NoGeometry in IntegrityErrors(ParametersState(sim, [], map[], xs))
  {
    SuppliedDefaultsIntegrity(ParametersState(sim, [], map[], xs));
  }

  /** Parameters: the simulation settings, the list of geometries and the
      materials and cross sections by name. */
  class Parameters {
    var simulationParams: SimulationParameters
    var geometryParams: seq<GeometryParameters>
    var materialParams: map<string, MaterialParameters>
    var crossSectionParams: map<string, CrossSectionParameters>

    function State(): ParametersState
      reads this
    {
      ParametersState(simulationParams, geometryParams, materialParams, crossSectionParams)
    }

    /** The parameters before any input file: the given simulation settings
        (the defaults, or those read from the command line) and nothing else. */
    constructor (simulation: SimulationParameters)
      ensures State() == ParametersState(simulation, [], map[], map[])
    {
      simulationParams := simulation;
      geometryParams := [];
      materialParams := map[];
      crossSectionParams := map[];
    }

    /** add_geometry_parameter: geometries are kept in input order. */
    method AddGeometryParameter(g: GeometryParameters)
      modifies this
      ensures State() == old(State()).(geometries := old(geometryParams) + [g])
    {
      geometryParams := geometryParams + [g];
    }

    /** add_material_parameter: stored under its name, replacing any earlier
        material of that name. */
    method AddMaterialParameter(m: MaterialParameters)
      modifies this
      ensures State() == old(State()).(materials := old(materialParams)[m.name := m])
    {
      materialParams := materialParams[m.name := m];
    }

    /** add_cross_section_parameter: stored under its name, replacing any
        earlier cross section of that name. */
    method AddCrossSectionParameter(c: CrossSectionParameters)
      modifies this
      ensures State() == old(State()).(crossSections := old(crossSectionParams)[c.name := c])
    {
      crossSectionParams := crossSectionParams[c.name := c];
    }

    /** supply_defaults */
    method SupplyDefaults()
      modifies this
      ensures State() == WithDefaults(old(State()))
    {
      if |geometryParams| > 0 {
        return;
      }
      crossSectionParams := crossSectionParams[FLAT_CROSS_SECTION.name := FLAT_CROSS_SECTION];
      materialParams := materialParams[SOURCE_MATERIAL.name := SOURCE_MATERIAL];
      geometryParams := geometryParams + [SourceGeometry(simulationParams)];
    }

    /** The geometry pass of check_parameters_integrity, in list order. */
    method ScanGeometries() returns (errors: seq<ParameterError>)
      ensures errors == GeometryErrorList(State(), |geometryParams|)
      ensures (set e | e in errors) == GeometryErrors(State(), |geometryParams|)
    {
      var s := State();
      errors := [];
      for i := 0 to |geometryParams|
        invariant errors == GeometryErrorList(s, i)
      {
        var g := geometryParams[i];
        if g.shape == Undefined {
          errors := errors + [UndefinedGeometry];
        }
        if g.materialName !in materialParams {
          errors := errors + [MissingMaterial(g.materialName)];
        }
      }
      GeometryErrorListSet(s, |geometryParams|);
    }

    /** The material pass of check_parameters_integrity: each material, in
        the map's iteration order, adds its missing cross sections in the
        order absorption, scattering, fission. */
    method ScanMaterials() returns (errors: seq<ParameterError>)
      ensures exists order :: Enumerates(order, materialParams.Keys) && errors == MaterialErrorList(State(), order)
      ensures (set e | e in errors) == CrossSectionErrors(State(), materialParams.Keys)
    {
      var s := State();
      errors := [];
      ghost var order: seq<string> := [];
      var todo := materialParams.Keys;
      while todo != {}
        invariant todo <= materialParams.Keys
        invariant forall i :: 0 <= i < |order| ==> order[i] in materialParams.Keys - todo
        invariant forall k :: k in materialParams.Keys - todo ==> k in order
        invariant forall i, j :: 0 <= i < j < |order| ==> order[i] != order[j]
        invariant errors == MaterialErrorList(s, order)
        decreases todo
      {
        var name :| name in todo;
        var m := materialParams[name];
        assert (order + [name])[..|order|] == order;
        ghost var before := errors;
        if m.absorptionCrossSection !in crossSectionParams {
          errors := errors + [MissingCrossSection(m.name + ":" + m.absorptionCrossSection)];
        }
        if m.scatteringCrossSection !in crossSectionParams {
          errors := errors + [MissingCrossSection(m.name + ":" + m.scatteringCrossSection)];
        }
        if m.fissionCrossSection !in crossSectionParams {
          errors := errors + [MissingCrossSection(m.name + ":" + m.fissionCrossSection)];
        }
        assert errors == before + MaterialEntryErrors(s, m);
        order := order + [name];
        todo := todo - {name};
      }
      assert Enumerates(order, materialParams.Keys);
      MaterialErrorListSet(s, order);
      assert (set k | k in order) == materialParams.Keys;
    }

    /** check_parameters_integrity: Ok exactly when the problem can be
        simulated; otherwise the errors found are exactly IntegrityErrors,
        NoGeometry first when there is no geometry. */
    method CheckParametersIntegrity() returns (r: Result<(), seq<ParameterError>>)
      ensures r.Ok? <==> IntegrityOk(State())
      ensures r.Err? ==> (set e | e in r.error) == IntegrityErrors(State())
      ensures r.Err? && |geometryParams| == 0 ==> r.error[0] == NoGeometry
      ensures r.Err? ==>
        (exists order :: Enumerates(order, materialParams.Keys) &&
          r.error == (if |geometryParams| == 0 then [NoGeometry] else []) +
            GeometryErrorList(State(), |geometryParams|) + MaterialErrorList(State(), order))
    {
      var first: seq<ParameterError> := if |geometryParams| == 0 then [NoGeometry] else [];
      var geometryErrors := ScanGeometries();
      var materialErrors := ScanMaterials();
      var errors := first + geometryErrors + materialErrors;
      ErrorSetConcat(first, geometryErrors);
      ErrorSetConcat(first + geometryErrors, materialErrors);
      assert ErrorSet(first) == if |geometryParams| == 0 then {NoGeometry} else {};
      ghost var found := ErrorSet(errors);
      assert found == IntegrityErrors(State());
      IntegrityOkIffNoErrors(State());
      if |errors| == 0 {
        return Ok(());
      }
      assert errors[0] in found;
      return Err(errors);
    }

    /** update_simulation_parameters: the settings become those of
        ApplySimulationBlock, with the same outcome; nothing else changes. */
    method UpdateSimulationParameters(block: Block, parseFloat: FloatParser) returns (r: UpdateOutcome)
      modifies this
      ensures r == Updated <==> SimulationBlockOk(block, parseFloat)
      ensures r == Updated ==> simulationParams == SimulationFromEntries(old(simulationParams), SimulationEntries(block), parseFloat)
      ensures r == Panicked ==> SimulationBlockPanics(block)
      ensures r.Rejected? ==> r.error == BadSimulationBlock && SimulationBlockRejects(block, parseFloat)
      ensures PartlyApplied(old(simulationParams), block, simulationParams, parseFloat)
      ensures geometryParams == old(geometryParams) && materialParams == old(materialParams)
      ensures crossSectionParams == old(crossSectionParams)
    {
      var settings := simulationParams;
      var p;
      r, p := ApplySimulationBlock(settings, block, parseFloat);
      simulationParams := p;
    }
  }
}
