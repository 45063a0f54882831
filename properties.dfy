/** The tagged property records of a GVAS save (uesave/__init__.py): one constructor per `Property`
    subclass, each carrying the name, tag and size every record has, plus the fields its class
    keeps. Floating-point values are kept as their raw little-endian payload bytes. */
module Properties {
  import opened Bytes

  /** What a `ByteProperty` holds: a byte (declared size 1) or an enum value name (any other size). */
  datatype ByteValue = ByteNum(num: int) | ByteName(word: string)

  /** The `values` of an `ArrayProperty`: a byte string (byte arrays and unknown inner types), a
      list of strings, of ints, of properties (struct arrays) or of 4-byte float payloads. */
  datatype ArrayValues =
    | ByteValues(bytes: seq<byte>)
    | StrValues(strs: seq<string>)
    | IntValues(ints: seq<int>)
    | PropValues(props: seq<Property>)
    | FloatValues(floats: seq<seq<byte>>)

  datatype Property =
    | ArrayProperty(name: string, tag: int, size: int, innerType: string, arraySize: int, values: ArrayValues)
    | BoolProperty(name: string, tag: int, size: int, flag: bool)
    | ByteProperty(name: string, tag: int, size: int, guid: string, byteValue: ByteValue)
    | DoubleProperty(name: string, tag: int, size: int, payload: seq<byte>)
    | FloatProperty(name: string, tag: int, size: int, payload: seq<byte>)
    | Int64Property(name: string, tag: int, size: int, i64: int)
    | IntProperty(name: string, tag: int, size: int, i32: int, intTag: byte)
    | MapProperty(name: string, tag: int, size: int, keyType: string, valueType: string, mapSize: int, raw: seq<byte>)
    | NameProperty(name: string, tag: int, size: int, text: string)
    | ObjectProperty(name: string, tag: int, size: int, text: string)
    | StrProperty(name: string, tag: int, size: int, text: string)
    | StructProperty(name: string, tag: int, size: int, structType: string, guid: string, fields: seq<Property>)
    | TextProperty(name: string, tag: int, size: int, bytes: seq<byte>)
    | UInt64Property(name: string, tag: int, size: int, u64: int)

  /** The 14 subclasses of `Property`, in the order they are defined. */
  datatype PropertyClass =
    | ArrayClass | BoolClass | ByteClass | DoubleClass | FloatClass | Int64Class | IntClass
    | MapClass | NameClass | ObjectClass | StrClass | StructClass | TextClass | UInt64Class

  const PROPERTY_CLASSES: seq<PropertyClass> := [
    ArrayClass, BoolClass, ByteClass, DoubleClass, FloatClass, Int64Class, IntClass,
    MapClass, NameClass, ObjectClass, StrClass, StructClass, TextClass, UInt64Class]

  /** `cls.__name__`. */
  function TypeName(c: PropertyClass): string {
    match c
    case ArrayClass => "ArrayProperty"
    case BoolClass => "BoolProperty"
    case ByteClass => "ByteProperty"
    case DoubleClass => "DoubleProperty"
    case FloatClass => "FloatProperty"
    case Int64Class => "Int64Property"
    case IntClass => "IntProperty"
    case MapClass => "MapProperty"
    case NameClass => "NameProperty"
    case ObjectClass => "ObjectProperty"
    case StrClass => "StrProperty"
    case StructClass => "StructProperty"
    case TextClass => "TextProperty"
    case UInt64Class => "UInt64Property"
  }

  /** The class of a property value. */
  function ClassOf(p: Property): (c: PropertyClass) {
    match p
    case ArrayProperty(_, _, _, _, _, _) => ArrayClass
    case BoolProperty(_, _, _, _) => BoolClass
    case ByteProperty(_, _, _, _, _) => ByteClass
    case DoubleProperty(_, _, _, _) => DoubleClass
    case FloatProperty(_, _, _, _) => FloatClass
    case Int64Property(_, _, _, _) => Int64Class
    case IntProperty(_, _, _, _, _) => IntClass
    case MapProperty(_, _, _, _, _, _, _) => MapClass
    case NameProperty(_, _, _, _) => NameClass
    case ObjectProperty(_, _, _, _) => ObjectClass
    case StrProperty(_, _, _, _) => StrClass
    case StructProperty(_, _, _, _, _, _) => StructClass
    case TextProperty(_, _, _, _) => TextClass
    case UInt64Property(_, _, _, _) => UInt64Class
  }

  /** `prop.__class__.__name__`: the type name `_write_property` writes. */
  function ClassName(p: Property): string {
    TypeName(ClassOf(p))
  }

  /** The first class in `cs` whose name is `t`. */
  function FindClass(cs: seq<PropertyClass>, t: string): (r: Option<PropertyClass>)
    ensures r.Some? ==> r.value in cs && TypeName(r.value) == t
    ensures r.None? ==> forall i :: 0 <= i < |cs| ==> TypeName(cs[i]) != t
  {
    if cs == [] then None
    else if TypeName(cs[0]) == t then Some(cs[0])
    else FindClass(cs[1..], t)
  }

  /** `PropertyFactory._TYPE_MAP.get(t)`: the map from each subclass's name to the subclass. */
  function LookupClass(t: string): (r: Option<PropertyClass>)
    ensures r.Some? ==> TypeName(r.value) == t
    ensures r.None? ==> forall c: PropertyClass :: TypeName(c) != t
  {
    var r := FindClass(PROPERTY_CLASSES, t);
    if r.None? then
      forall c: PropertyClass ensures TypeName(c) != t {
        assert c == PROPERTY_CLASSES[ClassIndex(c)];
      }
      r
    else r
  }

  function ClassIndex(c: PropertyClass): (i: nat)
    ensures i < |PROPERTY_CLASSES| && PROPERTY_CLASSES[i] == c
  {
    match c
    case ArrayClass => 0 case BoolClass => 1 case ByteClass => 2 case DoubleClass => 3
    case FloatClass => 4 case Int64Class => 5 case IntClass => 6 case MapClass => 7
    case NameClass => 8 case ObjectClass => 9 case StrClass => 10 case StructClass => 11
    case TextClass => 12 case UInt64Class => 13
  }

  /** The type names are distinct, so looking up a class's own name finds that class. */
  lemma LookupTypeName(c: PropertyClass)
    ensures LookupClass(TypeName(c)) == Some(c)
  {
    var t, i := TypeName(c), ClassIndex(c);
    forall j | 0 <= j < i ensures TypeName(PROPERTY_CLASSES[j]) != t {
      NamesDiffer(PROPERTY_CLASSES[j], c);
    }
    FindClassFirst(PROPERTY_CLASSES, t, i);
  }

  lemma NamesDiffer(c: PropertyClass, d: PropertyClass)
    requires ClassIndex(c) < ClassIndex(d)
    ensures TypeName(c) != TypeName(d)
  {
    var s, t := TypeName(c), TypeName(d);
    assert s[0] != t[0] || s[3] != t[3];
  }

  /** When no class before position `i` has name `t`, the search finds the class at `i`. */
  lemma {:induction false} FindClassFirst(cs: seq<PropertyClass>, t: string, i: nat)
    requires i < |cs| && TypeName(cs[i]) == t
    requires forall j :: 0 <= j < i ==> TypeName(cs[j]) != t
    ensures FindClass(cs, t) == Some(cs[i])
  {
    if i > 0 {
      FindClassFirst(cs[1..], t, i - 1);
    }
  }

  /** `prop.size`: the stored size, except that `BoolProperty` always reports 0 and `FloatProperty`
      always reports 4. */
  function SizeField(p: Property): (n: int)
    ensures p.BoolProperty? ==> n == 0
    ensures p.FloatProperty? ==> n == 4
    ensures !p.BoolProperty? && !p.FloatProperty? ==> n == p.size
  {
    match p
    case BoolProperty(_, _, _, _) => 0
    case FloatProperty(_, _, _, _) => 4
    case _ => p.size
  }

  /** `IntProperty(name, tag, size, value, int_tag)`: the constructor keeps only `int_tag & 0xff`. */
  function IntPropertyOf(name: string, tag: int, size: int, value: int, intTag: int): (p: Property)
    ensures p.IntProperty? && p.name == name && p.tag == tag && p.size == size && p.i32 == value
    ensures p.intTag == intTag % 256
    ensures 0 <= intTag < 256 ==> p.intTag == intTag
  {
    IntProperty(name, tag, size, value, intTag % 256)
  }
}
